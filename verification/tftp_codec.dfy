/**
 TFTP packets and option negotiation (internal/tftp/server.go; RFC 1350, 2347, 2348, 2349).

 A Go string is a sequence of bytes, here characters below 256.
 */
module TftpCodec {
  import opened Text

  type Byte = c: char | c as int < 256
  type Bytes = seq<Byte>

  const NUL: Byte := '\0'
  const OPCODE_RRQ := 1
  const OPCODE_DATA := 3
  const OPCODE_ACK := 4
  const OPCODE_OACK := 6
  const DEFAULT_BLOCK_SIZE := 512
  const MIN_BLOCK_SIZE := 8
  const MAX_BLOCK_SIZE := 65464

  // ----- 16-bit numbers ---------------------------------------------------------------

  type Word = n: nat | n < 0x1_0000

  function PutWord(w: Word): Bytes {
    [(w / 256) as char as Byte, (w % 256) as char as Byte]
  }

  function GetWord(p: Bytes): Word
    requires |p| >= 2
  {
    p[0] as int * 256 + p[1] as int
  }

  // ----- Requests ----------------------------------------------------------------------

  datatype Request = Request(filename: Bytes, options: map<Bytes, Bytes>)

  datatype RequestError = NotARead | Malformed | UnsafeFilename | UnsupportedMode | DuplicateOption

  datatype Result<+T, +E> = Ok(value: T) | Err(error: E)

  function LowerByte(c: Byte): Byte {
    if 'A' <= c <= 'Z' then (c as int + 32) as char else c
  }

  // strings.ToLower on ASCII text.
  function Lower(s: Bytes): (lower: Bytes)
    ensures |lower| == |s|
  {
    seq(|s|, i requires 0 <= i < |s| => LowerByte(s[i]))
  }

  function SplitZeroTerminated(data: Bytes): (fields: seq<Bytes>) {
    if data == [] || data[|data| - 1] != NUL then []
    else
      var fields := Split(data[..|data| - 1], NUL);
      if [] in fields then [] else fields
  }

  predicate SafePart(part: Bytes) {
    part != "" && part != "." && part != ".."
  }

  predicate SafeFilename(name: Bytes) {
    && name != "" && |name| <= 1024 && name[0] != '/'
    && (forall i | 0 <= i < |name| :: name[i] != '\\' && name[i] != ':' && name[i] as int >= 0x20 && name[i] as int != 0x7f)
    && forall part <- Split<Byte>(name, '/') :: SafePart(part)
  }

  // The options in the first `k` pairs after the file name and the mode.
  function Options(fields: seq<Bytes>, k: nat): (r: Option<map<Bytes, Bytes>>)
    requires 2 * k + 1 < |fields|
  {
    if k == 0 then Some(map[])
    else
      match Options(fields, k - 1)
      case None => None
      case Some(options) =>
        var name := Lower(fields[2 * k]);
        if name in options then None else Some(options[name := fields[2 * k + 1]])
  }

  function Parse(packet: Bytes): Result<Request, RequestError> {
    if |packet| < 4 || GetWord(packet) != OPCODE_RRQ then Err(NotARead)
    else
      var fields := SplitZeroTerminated(packet[2..]);
      if |fields| < 2 || |fields| % 2 != 0 then Err(Malformed)
      else if !SafeFilename(fields[0]) then Err(UnsafeFilename)
      else if Lower(fields[1]) != "octet" then Err(UnsupportedMode)
      else
        match Options(fields, |fields| / 2 - 1)
        case None => Err(DuplicateOption)
        case Some(options) => Ok(Request(fields[0], options))
  }

  method ParseRequest(packet: Bytes) returns (result: Result<Request, RequestError>)
    ensures result == Parse(packet)
  {
    if |packet| < 4 || GetWord(packet[..2]) != OPCODE_RRQ {
      return Err(NotARead);
    }
    var parts := SplitZeroTerminated(packet[2..]);
    if |parts| < 2 || |parts| % 2 != 0 {
      return Err(Malformed);
    }
    if !SafeFilename(parts[0]) {
      return Err(UnsafeFilename);
    }
    if Lower(parts[1]) != "octet" {
      return Err(UnsupportedMode);
    }
    var options: map<Bytes, Bytes> := map[];
    var index := 2;
    while index < |parts|
      invariant 2 <= index <= |parts| && index % 2 == 0
      invariant Options(parts, index / 2 - 1) == Some(options)
    {
      var name := Lower(parts[index]);
      if name in options {
        NoOptionsAfterDuplicate(parts, index / 2, |parts| / 2 - 1);
        return Err(DuplicateOption);
      }
      options := options[name := parts[index + 1]];
      index := index + 2;
    }
    return Ok(Request(parts[0], options));
  }

  lemma {:induction false} NoOptionsAfterDuplicate(fields: seq<Bytes>, n: nat, k: nat)
    requires n <= k && 2 * k + 1 < |fields| && Options(fields, n) == None
    ensures Options(fields, k) == None
  {
    if n < k {
      NoOptionsAfterDuplicate(fields, n, k - 1);
    }
  }

  // ----- The encoder a client uses ------------------------------------------------------

  function Terminate(fields: seq<Bytes>): Bytes {
    if fields == [] then [] else fields[0] + [NUL] + Terminate(fields[1..])
  }

  function Pairs(options: seq<(Bytes, Bytes)>): (fields: seq<Bytes>)
    ensures |fields| == 2 * |options|
  {
    if options == [] then [] else Pairs(options[..|options| - 1]) + [options[|options| - 1].0, options[|options| - 1].1]
  }

  function EncodeRead(fields: seq<Bytes>): Bytes {
    PutWord(OPCODE_RRQ) + Terminate(fields)
  }

  function EncodeRequest(filename: Bytes, options: seq<(Bytes, Bytes)>): Bytes {
    EncodeRead([filename, "octet"] + Pairs(options))
  }

  lemma {:induction false} TerminateIsJoin(fields: seq<Bytes>)
    requires fields != []
    ensures Terminate(fields) == Join(fields, NUL) + [NUL]
  {
    if |fields| > 1 {
      TerminateIsJoin(fields[1..]);
      calc {
        Terminate(fields);
        fields[0] + [NUL] + (Join(fields[1..], NUL) + [NUL]);
        (fields[0] + [NUL] + Join(fields[1..], NUL)) + [NUL];
      }
    } else {
      assert Terminate(fields[1..]) == [];
    }
  }

  ghost predicate PlainField(f: Bytes) {
    f != [] && NUL !in f
  }

  lemma FieldsRoundTrip(fields: seq<Bytes>)
    requires fields != [] && forall f <- fields :: PlainField(f)
    ensures SplitZeroTerminated(Terminate(fields)) == fields
  {
    TerminateIsJoin(fields);
    SplitOfJoin(fields, NUL);
    var data := Terminate(fields);
    assert data[..|data| - 1] == Join(fields, NUL);
  }

  lemma FieldsOfPacket(data: Bytes)
    requires SplitZeroTerminated(data) != []
    ensures var fields := SplitZeroTerminated(data);
      Terminate(fields) == data && forall f <- fields :: PlainField(f)
  {
    TerminateIsJoin(SplitZeroTerminated(data));
  }

  ghost predicate DistinctNames(fields: seq<Bytes>, k: nat)
    requires 2 * k + 1 < |fields|
  {
    forall i, j | 1 <= i < j <= k :: Lower(fields[2 * i]) != Lower(fields[2 * j])
  }

  // What the RFCs call a well-formed read request, as a list of fields.
  ghost predicate ReadFields(fields: seq<Bytes>) {
    && |fields| >= 2 && |fields| % 2 == 0 && (forall f <- fields :: PlainField(f))
    && SafeFilename(fields[0]) && Lower(fields[1]) == "octet"
    && DistinctNames(fields, |fields| / 2 - 1)
  }

  ghost predicate CarriesOptions(fields: seq<Bytes>, k: nat, options: map<Bytes, Bytes>)
    requires 2 * k + 1 < |fields|
  {
    && (forall i | 1 <= i <= k :: Lower(fields[2 * i]) in options && options[Lower(fields[2 * i])] == fields[2 * i + 1])
    && (forall name <- options :: exists i :: 1 <= i <= k && Lower(fields[2 * i]) == name)
  }

  // The option loop succeeds exactly on distinct names, and then maps each name to its value.
  lemma {:induction false} OptionsExact(fields: seq<Bytes>, k: nat)
    requires 2 * k + 1 < |fields|
    ensures Options(fields, k).Some? <==> DistinctNames(fields, k)
    ensures Options(fields, k).Some? ==> CarriesOptions(fields, k, Options(fields, k).value)
  {
    if k > 0 {
      OptionsExact(fields, k - 1);
      DistinctNext(fields, k);
      var name := Lower(fields[2 * k]);
      if Options(fields, k - 1).Some? {
        var before := Options(fields, k - 1).value;
        hide Lower, Options, DistinctNames;
        assert name in before <==> exists i :: 1 <= i <= k - 1 && Lower(fields[2 * i]) == name;
        if name !in before {
          CarriesNext(fields, k, before);
        }
      }
    }
  }

  lemma DistinctNext(fields: seq<Bytes>, k: nat)
    requires 0 < k && 2 * k + 1 < |fields|
    ensures DistinctNames(fields, k) <==> DistinctNames(fields, k - 1) && forall i | 1 <= i <= k - 1 :: Lower(fields[2 * i]) != Lower(fields[2 * k])
  {
    hide Lower;
  }

  lemma CarriesNext(fields: seq<Bytes>, k: nat, before: map<Bytes, Bytes>)
    requires 0 < k && 2 * k + 1 < |fields| && CarriesOptions(fields, k - 1, before) && Lower(fields[2 * k]) !in before
    ensures CarriesOptions(fields, k, before[Lower(fields[2 * k]) := fields[2 * k + 1]])
  {
    hide Lower;
  }

  // The parser accepts exactly the encodings of well-formed field lists, and reads them faithfully.
  lemma ParseExact(packet: Bytes)
    ensures Parse(packet).Ok? <==> exists fields :: ReadFields(fields) && packet == EncodeRead(fields)
    ensures Parse(packet).Ok? ==> exists fields ::
      && ReadFields(fields) && packet == EncodeRead(fields)
      && Parse(packet).value.filename == fields[0]
      && CarriesOptions(fields, |fields| / 2 - 1, Parse(packet).value.options)
  {
    if Parse(packet).Ok? {
      var fields := SplitZeroTerminated(packet[2..]);
      FieldsOfPacket(packet[2..]);
      OptionsExact(fields, |fields| / 2 - 1);
      WordRoundTrip(packet);
      assert packet == packet[..2] + packet[2..];
      assert ReadFields(fields) && packet == EncodeRead(fields);
    } else if exists fields :: ReadFields(fields) && packet == EncodeRead(fields) {
      var fields :| ReadFields(fields) && packet == EncodeRead(fields);
      ParseEncoded(fields);
    }
  }

  lemma FilenameIsNotEmpty(name: Bytes)
    ensures SafeFilename(name) ==> name != []
  {
  }

  lemma WordRoundTrip(p: Bytes)
    requires |p| >= 2
    ensures PutWord(GetWord(p)) == p[..2]
  {
    assert p[..2] == [p[0], p[1]];
  }

  lemma ParseEncoded(fields: seq<Bytes>)
    requires ReadFields(fields)
    ensures Parse(EncodeRead(fields)).Ok?
    ensures Parse(EncodeRead(fields)).value.filename == fields[0]
    ensures CarriesOptions(fields, |fields| / 2 - 1, Parse(EncodeRead(fields)).value.options)
  {
    hide SafeFilename, Lower, SplitZeroTerminated;
    var packet := EncodeRead(fields);
    assert packet[2..] == Terminate(fields);
    FieldsRoundTrip(fields);
    assert GetWord(packet) == OPCODE_RRQ;
    assert |Terminate(fields)| >= 2;
    OptionsExact(fields, |fields| / 2 - 1);
  }

  // ----- Round trip of a client's request -----------------------------------------------

  ghost predicate ClientOption(o: (Bytes, Bytes)) {
    PlainField(o.0) && PlainField(o.1) && Lower(o.0) == o.0
  }

  lemma {:induction false} PairsAt(options: seq<(Bytes, Bytes)>, i: nat)
    requires i < |options|
    ensures Pairs(options)[2 * i] == options[i].0 && Pairs(options)[2 * i + 1] == options[i].1
  {
    if i < |options| - 1 {
      PairsAt(options[..|options| - 1], i);
    }
  }

  // Parsing gives back the file name and the options a client encoded.
  lemma RequestRoundTrip(filename: Bytes, options: seq<(Bytes, Bytes)>)
    requires SafeFilename(filename) && NUL !in filename
    requires forall o <- options :: ClientOption(o)
    requires forall i, j | 0 <= i < j < |options| :: options[i].0 != options[j].0
    ensures Parse(EncodeRequest(filename, options)).Ok?
    ensures var parsed := Parse(EncodeRequest(filename, options)).value;
      && parsed.filename == filename
      && (forall o <- options :: o.0 in parsed.options && parsed.options[o.0] == o.1)
      && (forall name <- parsed.options :: exists i :: 0 <= i < |options| && options[i].0 == name)
  {
    hide Parse, SafeFilename, Pairs, EncodeRead;
    var fields := [filename, "octet"] + Pairs(options);
    var k := |options|;
    assert |fields| / 2 - 1 == k;
    assert Lower("octet") == "octet";
    assert SafeFilename(filename) ==> filename != [] by { FilenameIsNotEmpty(filename); }
    forall i | 1 <= i <= k
      ensures fields[2 * i] == options[i - 1].0 && fields[2 * i + 1] == options[i - 1].1
      ensures ClientOption(options[i - 1])
    {
      PairsAt(options, i - 1);
      assert options[i - 1] in options;
    }
    forall f <- fields ensures PlainField(f) {
      var j :| 0 <= j < |fields| && fields[j] == f;
      assert j >= 2 ==> 1 <= j / 2 <= k && (j == 2 * (j / 2) || j == 2 * (j / 2) + 1);
    }
    ParseEncoded(fields);
    var parsed := Parse(EncodeRequest(filename, options)).value;
    forall o <- options ensures o.0 in parsed.options && parsed.options[o.0] == o.1 {
      var i :| 0 <= i < k && options[i] == o;
      assert Lower(fields[2 * (i + 1)]) == o.0;
    }
    forall name <- parsed.options ensures exists i :: 0 <= i < k && options[i].0 == name {
      var i :| 1 <= i <= k && Lower(fields[2 * i]) == name;
      assert options[i - 1].0 == name;
    }
  }

  // ----- DATA and OACK packets ----------------------------------------------------------

  function DataPacket(block: Word, data: Bytes): Bytes {
    PutWord(OPCODE_DATA) + PutWord(block) + data
  }

  function OptionAckPacket(options: seq<(Bytes, Bytes)>): Bytes {
    PutWord(OPCODE_OACK) + Terminate(Pairs(options))
  }

  // How a client reads a DATA packet.
  function DecodeData(packet: Bytes): Option<(Word, Bytes)> {
    if |packet| < 4 || GetWord(packet) != OPCODE_DATA then None
    else Some((GetWord(packet[2..]), packet[4..]))
  }

  function Unpair(fields: seq<Bytes>): seq<(Bytes, Bytes)> {
    if |fields| < 2 then [] else Unpair(fields[..|fields| - 2]) + [(fields[|fields| - 2], fields[|fields| - 1])]
  }

  // How a client reads an option acknowledgement.
  function DecodeOptionAck(packet: Bytes): Option<seq<(Bytes, Bytes)>> {
    if |packet| < 2 || GetWord(packet) != OPCODE_OACK then None
    else
      var fields := SplitZeroTerminated(packet[2..]);
      if fields == [] || |fields| % 2 != 0 then None else Some(Unpair(fields))
  }

  lemma DataRoundTrip(block: Word, data: Bytes)
    ensures DecodeData(DataPacket(block, data)) == Some((block, data))
  {
    var packet := DataPacket(block, data);
    assert packet[2..][..2] == PutWord(block);
    assert packet[4..] == data;
  }

  lemma {:induction false} UnpairOfPairs(options: seq<(Bytes, Bytes)>)
    ensures Unpair(Pairs(options)) == options
  {
    if options != [] {
      UnpairOfPairs(options[..|options| - 1]);
      var fields := Pairs(options);
      assert fields[..|fields| - 2] == Pairs(options[..|options| - 1]);
    }
  }

  lemma OptionAckRoundTrip(options: seq<(Bytes, Bytes)>)
    requires options != [] && forall o <- options :: PlainField(o.0) && PlainField(o.1)
    ensures DecodeOptionAck(OptionAckPacket(options)) == Some(options)
  {
    var fields := Pairs(options);
    forall f <- fields ensures PlainField(f) {
      var j :| 0 <= j < |fields| && fields[j] == f;
      PairsAt(options, j / 2);
      assert options[j / 2] in options;
    }
    assert |fields| == 2 * |options| by { UnpairOfPairs(options); }
    hide PlainField, Unpair, Pairs, SplitZeroTerminated, Terminate;
    FieldsRoundTrip(fields);
    UnpairOfPairs(options);
    assert OptionAckPacket(options)[2..] == Terminate(fields);
  }

  // ----- Negotiation ------------------------------------------------------------------------

  datatype OptionError = BadBlockSize | BadTimeout | BadTransferSize

  datatype Negotiation = Negotiation(accepted: seq<(Bytes, Bytes)>, blockSize: nat, timeoutSeconds: Option<nat>)

  function ItoaBytes(n: nat): (b: Bytes)
    ensures PlainField(b)
  {
    var s := Itoa(n);
    assert forall i | 0 <= i < |s| :: IsDigit(s[i]);
    s
  }

  function AcceptBlockSize(options: map<Bytes, Bytes>, maximum: nat): (r: Result<Option<nat>, OptionError>) {
    if "blksize" !in options then Ok(None)
    else
      match Atoi(options["blksize"])
      case None => Err(BadBlockSize)
      case Some(n) =>
        if n < MIN_BLOCK_SIZE || n > MAX_BLOCK_SIZE then Err(BadBlockSize)
        else Ok(Some(if n > maximum then maximum else n))
  }

  function AcceptTimeout(options: map<Bytes, Bytes>): (r: Result<Option<nat>, OptionError>) {
    if "timeout" !in options then Ok(None)
    else
      match Atoi(options["timeout"])
      case None => Err(BadTimeout)
      case Some(n) => if n < 1 || n > 255 then Err(BadTimeout) else Ok(Some(n))
  }

  function Negotiate(options: map<Bytes, Bytes>, fileSize: nat, maximum: nat): Result<Negotiation, OptionError> {
    match AcceptBlockSize(options, maximum)
    case Err(e) => Err(e)
    case Ok(size) =>
      match AcceptTimeout(options)
      case Err(e) => Err(e)
      case Ok(seconds) =>
        if "tsize" in options && options["tsize"] != "0" then Err(BadTransferSize)
        else
          var accepted: seq<(Bytes, Bytes)> :=
            (if size.Some? then [("blksize", ItoaBytes(size.value))] else []) +
            (if seconds.Some? then [("timeout", ItoaBytes(seconds.value))] else []) +
            (if "tsize" in options then [("tsize", ItoaBytes(fileSize))] else []);
          Ok(Negotiation(accepted, if size.Some? then size.value else DEFAULT_BLOCK_SIZE, seconds))
  }

  lemma OptionNamesDiffer()
    ensures var b: Bytes, t: Bytes, s: Bytes := "blksize", "timeout", "tsize";
      b != t && t != s && b != s && PlainField(b) && PlainField(t) && PlainField(s)
  {
    var b: Bytes, t: Bytes := "blksize", "timeout";
    assert b[0] != t[0];
  }

  // What one answered option tells the client about the transfer it will see.
  ghost predicate Agreed(options: map<Bytes, Bytes>, answer: (Bytes, Bytes), n: Negotiation, fileSize: nat, maximum: nat) {
    && answer.0 in options
    && (answer.0 == "blksize" ==>
          && Atoi(answer.1) == Some(n.blockSize) && MIN_BLOCK_SIZE <= n.blockSize <= maximum
          && Atoi(options[answer.0]).Some? && n.blockSize <= Atoi(options[answer.0]).value)
    && (answer.0 == "timeout" ==>
          Atoi(answer.1) == Atoi(options[answer.0]) && n.timeoutSeconds.Some? && Atoi(answer.1) == Some(n.timeoutSeconds.value))
    && (answer.0 == "tsize" ==> Atoi(answer.1) == Some(fileSize) && options[answer.0] == "0")
    && (answer.0 == "blksize" || answer.0 == "timeout" || answer.0 == "tsize")
  }

  lemma BlockSizeAnswer(options: map<Bytes, Bytes>, maximum: nat)
    requires MIN_BLOCK_SIZE <= maximum <= MAX_BLOCK_SIZE && AcceptBlockSize(options, maximum).Ok?
    ensures var size := AcceptBlockSize(options, maximum).value;
      && (size.Some? <==> "blksize" in options)
      && (size.Some? ==>
            && MIN_BLOCK_SIZE <= size.value <= maximum && Atoi(options["blksize"]).Some?
            && size.value <= Atoi(options["blksize"]).value && Atoi(ItoaBytes(size.value)) == Some(size.value))
  {
    hide Itoa, Atoi;
    if AcceptBlockSize(options, maximum).value.Some? {
      AtoiOfItoa(AcceptBlockSize(options, maximum).value.value);
    }
  }

  lemma SizeAnswer(n: nat)
    ensures Atoi(ItoaBytes(n)) == Some(n)
  {
    AtoiOfItoa(n);
  }

  lemma TimeoutAnswer(options: map<Bytes, Bytes>)
    requires AcceptTimeout(options).Ok?
    ensures var seconds := AcceptTimeout(options).value;
      && (seconds.Some? <==> "timeout" in options)
      && (seconds.Some? ==> Atoi(options["timeout"]) == Some(seconds.value) == Atoi(ItoaBytes(seconds.value)))
  {
    hide Itoa, Atoi;
    if AcceptTimeout(options).value.Some? {
      AtoiOfItoa(AcceptTimeout(options).value.value);
    }
  }

  // The option is absent, or a number in this range.
  ghost predicate InRange(options: map<Bytes, Bytes>, name: Bytes, low: int, high: int) {
    name in options ==> Atoi(options[name]).Some? && low <= Atoi(options[name]).value <= high
  }

  // Which requests are accepted, and what is used: the smaller of the block size asked for and the
  // server's own, or 512 when none was asked for; the timeout asked for.
  lemma NegotiationExactly(options: map<Bytes, Bytes>, fileSize: nat, maximum: nat)
    requires 8 <= maximum <= 65464
    ensures Negotiate(options, fileSize, maximum).Ok? <==>
      && InRange(options, "blksize", 8, 65464) && InRange(options, "timeout", 1, 255)
      && ("tsize" in options ==> options["tsize"] == "0")
    ensures Negotiate(options, fileSize, maximum).Ok? ==>
      var n := Negotiate(options, fileSize, maximum).value;
      && ("blksize" in options ==> Atoi(options["blksize"]).Some? && n.blockSize <= maximum && n.blockSize <= Atoi(options["blksize"]).value
                                   && (n.blockSize == maximum || n.blockSize == Atoi(options["blksize"]).value))
      && ("blksize" !in options ==> n.blockSize == 512)
      && ("timeout" in options ==> n.timeoutSeconds.Some? && Atoi(options["timeout"]) == Some(n.timeoutSeconds.value))
      && ("timeout" !in options ==> n.timeoutSeconds.None?)
  {
    hide Itoa, Atoi, ItoaBytes;
  }

  // What the client is entitled to conclude from an answer: it decodes the very options the
  // sender will use, they are options it asked for, and the block size respects both sides.
  lemma NegotiationAgrees(options: map<Bytes, Bytes>, fileSize: nat, maximum: nat)
    requires MIN_BLOCK_SIZE <= maximum <= MAX_BLOCK_SIZE
    requires Negotiate(options, fileSize, maximum).Ok?
    ensures var n := Negotiate(options, fileSize, maximum).value;
      && (n.accepted != [] ==> DecodeOptionAck(OptionAckPacket(n.accepted)) == Some(n.accepted))
      && (forall a <- n.accepted :: Agreed(options, a, n, fileSize, maximum))
      && (forall name: Bytes <- ["blksize", "timeout", "tsize"] ::
            name in options ==> exists a :: a in n.accepted && a.0 == name)
      && (forall i, j | 0 <= i < j < |n.accepted| :: n.accepted[i].0 != n.accepted[j].0)
      && ("blksize" !in options ==> n.blockSize == DEFAULT_BLOCK_SIZE)
      && 0 < n.blockSize
  {
    hide OptionAckPacket, DecodeOptionAck, AcceptBlockSize, AcceptTimeout, Itoa, Atoi, ItoaBytes;
    OptionNamesDiffer();
    BlockSizeAnswer(options, maximum);
    TimeoutAnswer(options);
    SizeAnswer(fileSize);
    var n := Negotiate(options, fileSize, maximum).value;
    var size, seconds := AcceptBlockSize(options, maximum).value, AcceptTimeout(options).value;
    if size.Some? {
      assert n.accepted[0] == ("blksize", ItoaBytes(size.value));
    }
    if seconds.Some? {
      assert ("timeout", ItoaBytes(seconds.value)) in n.accepted;
    }
    if "tsize" in options {
      assert n.accepted[|n.accepted| - 1] == ("tsize", ItoaBytes(fileSize));
    }
    if n.accepted != [] {
      OptionAckRoundTrip(n.accepted);
    }
  }
}
