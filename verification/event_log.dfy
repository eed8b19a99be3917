/**
 A job's event log: bounded appends and the monotone sequence (internal/jobs/manager.go, emitLocked),
 reading it in pages (EventsLimit), and the truncation at startup that keeps cursors usable
 (internal/jobs/retention.go, boundHistoricalOutput).
 */
module EventLog {
  import opened Text

  const EVENT_LIMIT := 1024 * 1024
  const METADATA_RESERVE := 4 * 1024 * 1024
  const TAIL := 32 * 1024
  const MESSAGE_LIMIT := 16384
  const SHORT_LIMIT := 2048
  const MARK := " [truncated]"
  // Everything in an encoded event but the message; the message may grow sixfold when escaped.
  const OVERHEAD := 512

  datatype Event = Event(sequence: nat, message: string)

  function Bounded(message: string, limit: nat): string {
    if |message| > limit then message[..limit] + MARK else message
  }

  ghost predicate Increasing(events: seq<Event>) {
    forall i, j | 0 <= i < j < |events| :: events[i].sequence < events[j].sequence
  }

  // A possible size of an event's line.
  predicate SizeOf(event: Event, size: nat) {
    0 < size <= OVERHEAD + 6 * |event.message|
  }

  // ----- Pages ----------------------------------------------------------------------------------

  // The events after a cursor.
  function After(events: seq<Event>, after: nat): seq<Event> {
    if events == [] then []
    else (if events[0].sequence > after then [events[0]] else []) + After(events[1..], after)
  }

  function Take(events: seq<Event>, n: nat): seq<Event> {
    if |events| <= n then events else events[..n]
  }

  lemma {:induction false} AfterConcat(a: seq<Event>, b: seq<Event>, after: nat)
    ensures After(a + b, after) == After(a, after) + After(b, after)
  {
    if a == [] {
      assert a + b == b;
    } else {
      AfterConcat(a[1..], b, after);
      assert (a + b)[1..] == a[1..] + b && (a + b)[0] == a[0];
      var head := if a[0].sequence > after then [a[0]] else [];
      assert head + (After(a[1..], after) + After(b, after)) == head + After(a[1..], after) + After(b, after);
    }
  }

  // EventsLimit; a limit of zero means all.
  method EventsLimit(all: seq<Event>, after: nat, limit: nat) returns (page: seq<Event>)
    ensures page == if limit == 0 then After(all, after) else Take(After(all, after), limit)
  {
    page := [];
    for i := 0 to |all|
      invariant page == After(all[..i], after) && (limit > 0 ==> |page| < limit)
    {
      assert all[..i + 1] == all[..i] + [all[i]];
      assert all == all[..i + 1] + all[i + 1..];
      AfterConcat(all[..i], [all[i]], after);
      AfterConcat(all[..i + 1], all[i + 1..], after);
      assert After([all[i]], after) == if all[i].sequence > after then [all[i]] else [];
      if all[i].sequence > after {
        page := page + [all[i]];
        if limit > 0 && |page| == limit {
          return;
        }
      }
    }
    assert all[..|all|] == all;
  }

  lemma IncreasingSplit(a: seq<Event>, b: seq<Event>)
    ensures Increasing(a + b) <==> Increasing(a) && Increasing(b) && forall x <- a, y <- b :: x.sequence < y.sequence
  {
    var s := a + b;
    assert forall i | 0 <= i < |a| :: s[i] == a[i];
    assert forall j | 0 <= j < |b| :: s[|a| + j] == b[j];
    if Increasing(s) {
      forall x, y | x in a && y in b ensures x.sequence < y.sequence {
        var i :| 0 <= i < |a| && a[i] == x;
        var j :| 0 <= j < |b| && b[j] == y;
        assert s[i].sequence < s[|a| + j].sequence;
      }
      forall i, j | 0 <= i < j < |a| ensures a[i].sequence < a[j].sequence { assert s[i].sequence < s[j].sequence; }
      forall i, j | 0 <= i < j < |b| ensures b[i].sequence < b[j].sequence { assert s[|a| + i].sequence < s[|a| + j].sequence; }
    } else {
      assert forall i | 0 <= i < |a| :: a[i] in a;
      assert forall j | 0 <= j < |b| :: b[j] in b;
      assert forall k | |a| <= k < |s| :: s[k] == b[k - |a|];
    }
  }

  lemma {:induction false} AfterMembers(events: seq<Event>, after: nat, e: Event)
    ensures e in After(events, after) <==> e in events && e.sequence > after
  {
    if events != [] {
      AfterMembers(events[1..], after, e);
      assert e in events <==> e == events[0] || e in events[1..];
    }
  }

  lemma {:induction false} AfterIncreasing(events: seq<Event>, after: nat)
    requires Increasing(events)
    ensures Increasing(After(events, after))
  {
    if events != [] {
      assert events == [events[0]] + events[1..];
      IncreasingSplit([events[0]], events[1..]);
      AfterIncreasing(events[1..], after);
      var rest := After(events[1..], after);
      forall y | y in rest ensures y in events[1..] { AfterMembers(events[1..], after, y); }
      IncreasingSplit([events[0]], rest);
      hide Increasing;
      assert [] + rest == rest;
    }
  }

  // A later cursor picks up where a page ended.
  lemma {:induction false} AfterPage(events: seq<Event>, after: nat, n: nat)
    requires Increasing(events) && 0 < n <= |After(events, after)|
    ensures var rest := After(events, after); After(events, rest[n - 1].sequence) == rest[n..]
  {
    hide Increasing, After;
    AfterStep(events, after);
    TailIsLater(events);
    var rest, first := After(events, after), events[0];
    if first.sequence > after && n == 1 {
      AfterFirst(events, after);
    } else if first.sequence > after {
      var tail := After(events[1..], after);
      AfterPage(events[1..], after, n - 1);
      AfterMembers(events[1..], after, tail[n - 2]);
      assert rest[n - 1] == tail[n - 2] && rest[n..] == tail[n - 1..] && tail[n - 2] in tail;
      AfterStep(events, tail[n - 2].sequence);
    } else {
      AfterPage(events[1..], after, n);
      AfterMembers(events[1..], after, rest[n - 1]);
      assert rest[n - 1] in rest;
      AfterStep(events, rest[n - 1].sequence);
    }
  }

  lemma TailIsLater(events: seq<Event>)
    requires Increasing(events) && events != []
    ensures Increasing(events[1..]) && forall e <- events[1..] :: events[0].sequence < e.sequence
  {
    assert events == [events[0]] + events[1..];
    IncreasingSplit([events[0]], events[1..]);
  }

  // Everything after the first event lies past a cursor at it.
  lemma AfterFirst(events: seq<Event>, after: nat)
    requires Increasing(events) && events != [] && events[0].sequence > after
    ensures After(events, events[0].sequence) == After(events, after)[1..]
  {
    hide Increasing, After;
    TailIsLater(events);
    AfterStep(events, after);
    AfterStep(events, events[0].sequence);
    AllAfter(events[1..], events[0].sequence);
    AllAfter(events[1..], after);
  }

  lemma AfterStep(events: seq<Event>, after: nat)
    ensures events == [] ==> After(events, after) == []
    ensures events != [] ==> After(events, after) == (if events[0].sequence > after then [events[0]] else []) + After(events[1..], after)
    ensures events != [] && events[0].sequence <= after ==> After(events, after) == After(events[1..], after)
  {
  }

  lemma {:induction false} AllAfter(events: seq<Event>, after: nat)
    requires forall e <- events :: e.sequence > after
    ensures After(events, after) == events
  {
    if events != [] {
      AllAfter(events[1..], after);
    }
  }

  // A client that reads pages of any size, each from the last sequence it saw, gets every event
  // after its start exactly once, in order, and gets done.
  method ReadByPages(all: seq<Event>, start: nat, limit: nat) returns (read: seq<Event>)
    requires Increasing(all) && limit >= 1
    ensures read == After(all, start)
  {
    read := [];
    var cursor := start;
    hide Increasing, After;
    while true
      invariant read + After(all, cursor) == After(all, start)
      decreases |After(all, cursor)|
    {
      ghost var rest := After(all, cursor);
      var page := EventsLimit(all, cursor, limit);
      if page == [] {
        return;
      }
      AfterPage(all, cursor, |page|);
      assert rest == page + rest[|page|..];
      read := read + page;
      cursor := page[|page| - 1].sequence;
    }
  }

  // ----- Appends -----------------------------------------------------------------------------------

  class Log {
    var events: seq<Event>
    var count: nat
    var bytes: nat
    var terminal: bool
    var truncated: bool
    // The log has had its one terminal event.
    ghost var closed: bool

    constructor ()
      ensures Valid() && events == [] && bytes == 0 && !terminal
    {
      events, count, bytes, terminal, truncated, closed := [], 0, 0, false, false, false;
    }

    // What boundHistoricalOutput and load leave: the parsed events and the size of the file.
    constructor Loaded(events: seq<Event>, size: nat, terminal: bool)
      requires Increasing(events) && size <= EVENT_LIMIT + LineLimit(MESSAGE_LIMIT) + LineLimit(SHORT_LIMIT)
      requires !terminal ==> size <= EVENT_LIMIT + LineLimit(MESSAGE_LIMIT)
      ensures Valid() && this.events == events && bytes == size && this.terminal == terminal
    {
      this.events, bytes, this.terminal, truncated, closed := events, size, terminal, false, terminal;
      count := 0;
      new;
      for i := 0 to |events|
        invariant this.events == events && bytes == size && this.terminal == terminal && closed == terminal
        invariant forall k | 0 <= k < i :: events[k].sequence <= count
        invariant count == 0 || exists k | 0 <= k < i :: events[k].sequence == count
      {
        if events[i].sequence > count {
          count := events[i].sequence;
        }
      }
    }

    ghost predicate Valid()
      reads this
    {
      && Increasing(events) && (forall e <- events :: e.sequence <= count)
      && (closed ==> terminal)
      && bytes <= EVENT_LIMIT + LineLimit(MESSAGE_LIMIT) + (if closed then LineLimit(SHORT_LIMIT) else 0)
    }

    // emitLocked.  `size` is the length of the encoded line.
    method Emit(message: string, size: nat) returns (event: Option<Event>)
      requires Valid() && !closed
      requires SizeOf(Event(count + 1, Shortened(message, bytes)), size)
      modifies this
      ensures Valid() && terminal == old(terminal) && closed == terminal
      ensures event.None? <==> old(bytes) >= EVENT_LIMIT && !terminal
      ensures event.None? ==> events == old(events) && bytes == old(bytes) && truncated
      ensures event.Some? ==> events == old(events) + [event.value] && bytes == old(bytes) + size
      ensures event.Some? ==> event.value.sequence == old(count) + 1 && event.value.message == Shortened(message, old(bytes))
      ensures event.Some? && event.value.message != message ==> truncated
    {
      var text := message;
      event := None;
      if |text| > MESSAGE_LIMIT {
        text := text[..MESSAGE_LIMIT] + MARK;
        truncated := true;
      }
      if bytes >= EVENT_LIMIT {
        truncated := true;
        closed := terminal;
        if !terminal {
          return;
        }
        if |text| > SHORT_LIMIT {
          text := text[..SHORT_LIMIT] + MARK;
        }
      }
      closed := terminal;
      var e := Event(count + 1, text);
      bytes := bytes + size;
      events := events + [e];
      count := e.sequence;
      event := Some(e);
    }

    // The job becomes terminal and says so; this one event is never dropped.
    method Finish(message: string, size: nat)
      requires Valid() && !terminal
      requires SizeOf(Event(count + 1, Shortened(message, bytes)), size)
      modifies this
      ensures Valid() && terminal && closed
      ensures events == old(events) + [Event(old(count) + 1, Shortened(message, old(bytes)))] && bytes == old(bytes) + size
    {
      terminal := true;
      var event := Emit(message, size);
    }
  }

  function Shortened(message: string, bytes: nat): string {
    if bytes >= EVENT_LIMIT then Bounded(Bounded(message, MESSAGE_LIMIT), SHORT_LIMIT) else Bounded(message, MESSAGE_LIMIT)
  }

  function LineLimit(messageLimit: nat): nat {
    OVERHEAD + 6 * (messageLimit + |MARK|)
  }

  // persistLocked refuses a larger record.
  predicate Persistable(record: nat) {
    record <= METADATA_RESERVE / 2
  }

  // In every state that the log can reach, it, a record and a transcript within its own limit stay
  // within what was reserved for the job.
  lemma LogFitsReservation(log: Log, record: nat, transcript: nat, transcriptLimit: nat)
    requires log.Valid() && Persistable(record) && transcript <= transcriptLimit
    ensures log.bytes + record + transcript <= EVENT_LIMIT + METADATA_RESERVE + transcriptLimit
  {
  }

  // ----- Truncation at startup -------------------------------------------------------------------------

  // A line of the file; one cut off by a crash does not parse.
  datatype Line = Line(event: Option<Event>, size: nat)

  function Bytes(lines: seq<Line>): nat {
    if lines == [] then 0 else lines[0].size + Bytes(lines[1..])
  }

  function Parsed(lines: seq<Line>): seq<Event> {
    if lines == [] then []
    else (if lines[0].event.Some? then [lines[0].event.value] else []) + Parsed(lines[1..])
  }

  // The whole lines that fit into `room` bytes.
  function Fitting(lines: seq<Line>, room: nat): seq<Line> {
    if lines == [] || lines[0].size > room then [] else [lines[0]] + Fitting(lines[1..], room - lines[0].size)
  }

  // The last line, if it lies in the tail that is read and parses to a real event.
  function LastEvent(lines: seq<Line>): Option<Event>
    requires lines != []
  {
    var last := lines[|lines| - 1];
    if last.size <= TAIL && last.event.Some? && last.event.value.sequence != 0 then last.event else None
  }

  function Replacement(lines: seq<Line>, recorded: nat): Event
    requires lines != []
  {
    match LastEvent(lines)
    case Some(e) => Event(e.sequence, Bounded(e.message, SHORT_LIMIT))
    case None => Event(recorded, "Historical events truncated by storage retention")
  }

  // `recorded` is the event count in job.json, `size` the length of the new last line.
  function Truncate(lines: seq<Line>, recorded: nat, size: nat): seq<Line> {
    if Bytes(lines) <= EVENT_LIMIT then lines
    else Fitting(lines, EVENT_LIMIT - TAIL) + [Line(Some(Replacement(lines, recorded)), size)]
  }

  lemma {:induction false} FittingIsPrefix(lines: seq<Line>, room: nat)
    ensures var kept := Fitting(lines, room);
      |kept| <= |lines| && kept == lines[..|kept|] && Bytes(kept) <= room
  {
    if lines != [] && lines[0].size <= room {
      FittingIsPrefix(lines[1..], room - lines[0].size);
    }
  }

  // No more lines would fit.
  lemma {:induction false} FittingIsLongest(lines: seq<Line>, room: nat)
    ensures var kept := Fitting(lines, room);
      |kept| <= |lines| && (|kept| < |lines| ==> Bytes(lines[..|kept| + 1]) > room)
  {
    if lines != [] {
      if lines[0].size <= room {
        FittingIsLongest(lines[1..], room - lines[0].size);
        var rest := Fitting(lines[1..], room - lines[0].size);
        if |rest| < |lines| - 1 {
          assert lines[..|rest| + 2][1..] == lines[1..][..|rest| + 1];
        }
      } else {
        assert lines[..1][1..] == [];
      }
    }
  }

  // A truncated message is the beginning of the original and says so.
  lemma BoundedMeans(message: string, limit: nat)
    ensures var b := Bounded(message, limit);
      && (|message| <= limit ==> b == message)
      && (|message| > limit ==> |b| == limit + 12 && b[..limit] == message[..limit] && b[limit..] == " [truncated]")
  {
  }

  lemma {:induction false} BytesConcat(a: seq<Line>, b: seq<Line>)
    ensures Bytes(a + b) == Bytes(a) + Bytes(b)
  {
    if a == [] {
      assert a + b == b;
    } else {
      BytesConcat(a[1..], b);
      assert (a + b)[1..] == a[1..] + b;
    }
  }

  lemma {:induction false} ParsedConcat(a: seq<Line>, b: seq<Line>)
    ensures Parsed(a + b) == Parsed(a) + Parsed(b)
  {
    if a == [] {
      assert a + b == b;
    } else {
      ParsedConcat(a[1..], b);
      assert (a + b)[1..] == a[1..] + b && (a + b)[0] == a[0];
      var head := if a[0].event.Some? then [a[0].event.value] else [];
      assert head + (Parsed(a[1..]) + Parsed(b)) == head + Parsed(a[1..]) + Parsed(b);
    }
  }

  // The kept lines are a prefix of what came before the last line, when that lies in the tail.
  lemma KeptBeforeLast(lines: seq<Line>)
    requires Bytes(lines) > EVENT_LIMIT && lines != [] && lines[|lines| - 1].size <= TAIL
    ensures |Fitting(lines, EVENT_LIMIT - TAIL)| < |lines|
  {
    FittingIsPrefix(lines, EVENT_LIMIT - TAIL);
    assert lines[..|lines|] == lines;
  }

  // The events are those of the kept lines and, when the last line is in the tail, at least that one.
  lemma KeptEvents(lines: seq<Line>)
    requires Bytes(lines) > EVENT_LIMIT && lines != [] && Increasing(Parsed(lines))
    ensures Increasing(Parsed(Fitting(lines, EVENT_LIMIT - TAIL)))
    ensures LastEvent(lines).Some? ==> Parsed(lines) != [] && Parsed(lines)[|Parsed(lines)| - 1] == LastEvent(lines).value
    ensures LastEvent(lines).Some? ==> forall e <- Parsed(Fitting(lines, EVENT_LIMIT - TAIL)) :: e.sequence < LastEvent(lines).value.sequence
  {
    hide Increasing, Fitting, Bytes, Parsed;
    var kept, last := Fitting(lines, EVENT_LIMIT - TAIL), lines[|lines| - 1];
    FittingIsPrefix(lines, EVENT_LIMIT - TAIL);
    assert lines == kept + lines[|kept|..];
    ParsedConcat(kept, lines[|kept|..]);
    IncreasingSplit(Parsed(kept), Parsed(lines[|kept|..]));
    if LastEvent(lines).Some? {
      KeptBeforeLast(lines);
      var middle := lines[|kept|..|lines| - 1];
      assert lines[|kept|..] == middle + [last];
      ParsedConcat(middle, [last]);
      ParsedOne(last);
      assert last.event.value in Parsed(lines[|kept|..]);
    }
  }

  lemma ParsedOne(line: Line)
    ensures Parsed([line]) == if line.event.Some? then [line.event.value] else []
    ensures Bytes([line]) == line.size
  {
    assert [line][1..] == [];
  }

  // Truncation keeps the log bounded, and keeps the sequence increasing exactly when the last line
  // parses from the tail, or else the recorded count is beyond every event that is kept; in the
  // first case cursors end where they ended before.
  lemma TruncationKeepsOrder(lines: seq<Line>, recorded: nat, size: nat)
    requires Increasing(Parsed(lines)) && Bytes(lines) > EVENT_LIMIT && lines != []
    requires SizeOf(Replacement(lines, recorded), size)
    ensures var cut := Parsed(Truncate(lines, recorded, size));
      && cut != [] && Bytes(Truncate(lines, recorded, size)) <= EVENT_LIMIT
      && (Increasing(cut) <==> LastEvent(lines).Some? || forall e <- Parsed(Fitting(lines, EVENT_LIMIT - TAIL)) :: e.sequence < recorded)
      && (LastEvent(lines).Some? ==> Parsed(lines) != [] && cut[|cut| - 1].sequence == Parsed(lines)[|Parsed(lines)| - 1].sequence)
  {
    hide Increasing, Fitting, Parsed, Bytes, Truncate, Replacement, LastEvent;
    var kept, e := Fitting(lines, EVENT_LIMIT - TAIL), Replacement(lines, recorded);
    CutIs(lines, recorded, size);
    KeptEvents(lines);
    IncreasingSplit(Parsed(kept), [e]);
    OneIsIncreasing(e);
    assert e in [e];
  }

  lemma OneIsIncreasing(e: Event)
    ensures Increasing([e])
  {
  }

  // The kept lines and the replacement, whose sequence is the last one's or the recorded count.
  lemma CutIs(lines: seq<Line>, recorded: nat, size: nat)
    requires Bytes(lines) > EVENT_LIMIT && lines != [] && SizeOf(Replacement(lines, recorded), size)
    ensures var kept, e := Fitting(lines, EVENT_LIMIT - TAIL), Replacement(lines, recorded);
      && Parsed(Truncate(lines, recorded, size)) == Parsed(kept) + [e]
      && Bytes(Truncate(lines, recorded, size)) <= EVENT_LIMIT
      && e.sequence == if LastEvent(lines).Some? then LastEvent(lines).value.sequence else recorded
  {
    var kept, e := Fitting(lines, EVENT_LIMIT - TAIL), Replacement(lines, recorded);
    var line := Line(Some(e), size);
    assert Truncate(lines, recorded, size) == kept + [line];
    hide Fitting, Parsed, Bytes, Truncate;
    FittingIsPrefix(lines, EVENT_LIMIT - TAIL);
    ParsedConcat(kept, [line]);
    BytesConcat(kept, [line]);
    ParsedOne(line);
  }

  // ----- A log that goes wrong -----------------------------------------------------------------------------

  // `n` events of 500 bytes each, numbered from `first`.
  function Numbered(first: nat, n: nat): seq<Line>
    decreases n
  {
    if n == 0 then [] else [Line(Some(Event(first, "")), 500)] + Numbered(first + 1, n - 1)
  }

  lemma {:induction false} NumberedFacts(first: nat, n: nat)
    ensures var lines := Numbered(first, n);
      && |lines| == n && Bytes(lines) == 500 * n && Increasing(Parsed(lines))
      && forall e <- Parsed(lines) :: first <= e.sequence
    decreases n
  {
    if n > 0 {
      NumberedFacts(first + 1, n - 1);
      var head, rest := Line(Some(Event(first, "")), 500), Numbered(first + 1, n - 1);
      assert Numbered(first, n)[1..] == rest;
      IncreasingSplit([Event(first, "")], Parsed(rest));
    }
  }

  // Lines as the service writes them, the last torn by a crash, with a record on disk that is older
  // than the events: the replacement's sequence is one that was used.
  lemma TruncationCanRepeatSequences()
    ensures exists lines: seq<Line>, recorded: nat, size: nat ::
      && lines != [] && Increasing(Parsed(lines)) && SizeOf(Replacement(lines, recorded), size)
      && (forall l <- lines :: l.size <= 500)
      && !Increasing(Parsed(Truncate(lines, recorded, size)))
  {
    hide Numbered, Bytes, Parsed, Fitting, Increasing, Truncate, Replacement;
    var n: nat := 2200;
    var lines := Numbered(1, n) + [Line(None, 100)];
    LongLogRepeats(n, lines);
  }

  lemma LongLogRepeats(n: nat, lines: seq<Line>)
    requires n > 2150 && lines == Numbered(1, n) + [Line(None, 100)]
    ensures lines != [] && Increasing(Parsed(lines)) && SizeOf(Replacement(lines, 1), 1)
    ensures (forall l <- lines :: l.size <= 500) && !Increasing(Parsed(Truncate(lines, 1, 1)))
  {
    hide Numbered, Bytes, Parsed, Fitting, Increasing, Truncate;
    TornLog(n, Line(None, 100));
    FittingStarts(lines);
    assert Replacement(lines, 1).sequence == 1;
    TruncationKeepsOrder(lines, 1, 1);
  }

  lemma TornLog(n: nat, torn: Line)
    requires n > 2 && torn.event.None?
    ensures var lines := Numbered(1, n) + [torn];
      && Bytes(lines) == 500 * n + torn.size && Increasing(Parsed(lines)) && lines[|lines| - 1] == torn && LastEvent(lines).None?
      && |lines| > 2 && lines[0] == Line(Some(Event(1, "")), 500) && lines[1] == Line(Some(Event(2, "")), 500)
      && forall l <- lines :: l.size <= 500 || l == torn
  {
    NumberedFacts(1, n);
    ParsedConcat(Numbered(1, n), [torn]);
    BytesConcat(Numbered(1, n), [torn]);
    ParsedOne(torn);
    assert Parsed(Numbered(1, n)) + [] == Parsed(Numbered(1, n));
    NumberedSizes(1, n);
    assert Numbered(1, n)[1..] == Numbered(2, n - 1);
  }

  lemma {:induction false} NumberedSizes(first: nat, n: nat)
    ensures forall l <- Numbered(first, n) :: l.size == 500
    decreases n
  {
    if n > 0 {
      NumberedSizes(first + 1, n - 1);
    }
  }

  // The first two lines are kept.
  lemma FittingStarts(lines: seq<Line>)
    requires |lines| > 2 && lines[0] == Line(Some(Event(1, "")), 500) && lines[1] == Line(Some(Event(2, "")), 500)
    ensures Event(2, "") in Parsed(Fitting(lines, EVENT_LIMIT - TAIL))
  {
    var room := EVENT_LIMIT - TAIL;
    var rest := lines[1..];
    var kept := Fitting(rest, room - 500);
    assert rest[0] == lines[1] && kept == [rest[0]] + Fitting(rest[1..], room - 1000);
    assert Fitting(lines, room) == [lines[0]] + kept;
    assert Parsed(kept)[0] == Event(2, "");
    assert ([lines[0]] + kept)[1..] == kept;
    assert Event(2, "") in Parsed(kept);
  }
}
