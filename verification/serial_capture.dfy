/**
 A job's serial transcript (internal/jobs/serial_capture.go): the consumer of one attachment, which
 keeps the first `limit` bytes and counts the rest.
 */
module SerialCapture {
  import opened Text
  import opened SerialHub
  import opened SerialRuns

  datatype State = Complete | Truncated | Failed

  // The transcript file and the counters beside it.
  datatype Transcript = Transcript(received: nat, retained: nat, truncated: bool, file: Bytes)

  const EMPTY := Transcript(0, 0, false, "")

  // One chunk, when the write succeeds.
  function Keep(limit: nat, t: Transcript, chunk: Bytes): Transcript {
    var room := limit - t.retained;
    var kept := if room <= 0 then "" else if |chunk| > room then chunk[..room] else chunk;
    Transcript(t.received + |chunk|, t.retained + |kept|, t.truncated || t.received + |chunk| > limit, t.file + kept)
  }

  function KeepAll(limit: nat, chunks: seq<Bytes>): Transcript {
    if chunks == [] then EMPTY else Keep(limit, KeepAll(limit, chunks[..|chunks| - 1]), chunks[|chunks| - 1])
  }

  lemma NothingYet(limit: nat)
    ensures KeepAll(limit, []) == EMPTY
  {
  }

  lemma KeptSoFar(limit: nat, chunks: seq<Bytes>)
    ensures var t, got := KeepAll(limit, chunks), Flat(chunks);
      && t.received == |got| && t.retained == |t.file| <= limit && (t.truncated <==> t.received > limit) && IsPrefix(t.file, got)
  {
    TranscriptIsPrefix(limit, chunks);
  }

  lemma PrefixOfPrefix(a: Bytes, b: Bytes, c: Bytes)
    requires IsPrefix(a, b) && IsPrefix(b, c)
    ensures IsPrefix(a, c) && |a| <= |b|
  {
  }

  lemma KeepNext(limit: nat, chunks: seq<Bytes>, i: nat)
    requires i < |chunks|
    ensures KeepAll(limit, chunks[..i + 1]) == Keep(limit, KeepAll(limit, chunks[..i]), chunks[i])
  {
    assert chunks[..i + 1][..i] == chunks[..i];
  }

  function Least(a: nat, b: nat): nat {
    if a < b then a else b
  }

  // However the bytes are cut into chunks, the transcript is their first `limit` bytes, and it is
  // marked as truncated exactly when there were more.
  lemma {:induction false} TranscriptIsPrefix(limit: nat, chunks: seq<Bytes>)
    ensures var got := Flat(chunks);
      KeepAll(limit, chunks) == Transcript(|got|, Least(|got|, limit), |got| > limit, got[..Least(|got|, limit)])
  {
    if chunks != [] {
      var init, last := chunks[..|chunks| - 1], chunks[|chunks| - 1];
      TranscriptIsPrefix(limit, init);
      assert Flat(chunks) == Flat(init) + last;
    }
  }

  // A capture attaches without replay: after any run, its transcript is the beginning of what the port
  // received since the attachment, as far as the capture has read.
  lemma TranscriptOfAttachment(w: World, r: Request, ops: seq<Op>, chunks: seq<Bytes>, limit: nat)
    requires Inv(w) && Refusal(w, r).None? && !r.replay
    requires |w.rx| == |w.conns| && Attach(w, r).nextId in Run(Attach(w, r), ops).taken
    requires Flat(chunks) == Run(Attach(w, r), ops).taken[Attach(w, r).nextId]
    ensures var v := Run(Attach(w, r), ops); var id := Attach(w, r).nextId;
      && id in v.subs && v.subs[id].conn < |v.rx| && |HeardBefore(w, r)| <= |v.rx[v.subs[id].conn]|
      && var since := v.rx[v.subs[id].conn][|HeardBefore(w, r)|..];
      && |Flat(chunks)| <= |since| && KeepAll(limit, chunks).file == since[..Least(|Flat(chunks)|, limit)]
  {
    hide Run, Attach, HeardBefore, IsReplay, Refusal, Inv, InvBut, Flat, KeepAll;
    StreamFidelity(w, r, ops);
    TranscriptIsPrefix(limit, chunks);
    var v, id := Run(Attach(w, r), ops), Attach(w, r).nextId;
    var since := v.rx[v.subs[id].conn][|HeardBefore(w, r)|..];
    assert "" + since == since;
    assert IsPrefix(Flat(chunks), since);
  }

  class Capture {
    const limit: nat
    var transcript: Transcript
    var writeFailed: bool
    var failed: bool
    var warnings: nat

    constructor (limit: nat)
      ensures transcript == EMPTY && !writeFailed && !failed && warnings == 0 && this.limit == limit
    {
      this.limit, transcript, writeFailed, failed, warnings := limit, EMPTY, false, false, 0;
    }

    // One received chunk; on a faulty disk the write may fail, or take only a part.
    method Accept(data: Bytes, faulty: bool)
      requires !writeFailed
      modifies this`transcript, this`writeFailed
      ensures (!writeFailed ==> transcript == Keep(limit, old(transcript), data)) && (!faulty ==> !writeFailed)
      ensures var t := Keep(limit, old(transcript), data);
        && transcript.received == t.received && transcript.truncated == t.truncated
        && IsPrefix(transcript.file, t.file) && IsPrefix(old(transcript).file, transcript.file)
        && transcript.retained - old(transcript).retained == |transcript.file| - |old(transcript).file|
    {
      var t := transcript;
      t := t.(received := t.received + |data|);
      var room := limit - t.retained;
      if room > 0 {
        var toWrite := if |data| > room then data[..room] else data;
        var written: nat := *;
        if !(faulty && 0 <= written <= |toWrite|) {
          written := |toWrite|;
        }
        assert t.file + toWrite[..written] == (t.file + toWrite)[..|t.file| + written];
        assert (t.file + toWrite[..written])[..|t.file|] == t.file;
        t := t.(retained := t.retained + written, file := t.file + toWrite[..written]);
        var error: bool := *;
        writeFailed := (faulty && error) || written != |toWrite|;
      }
      if t.received > limit {
        t := t.(truncated := true);
      }
      transcript := t;
    }

    // The capture loop over what the attachment delivers.  It ends when it is stopped, which it finds
    // before chunk `stopAt` with that one and later ones still queued; when the queue is closed (`lost`
    // says whether with an error); or when a write fails part way.
    method Record(chunks: seq<Bytes>, lost: bool, stopAt: nat, faulty: bool) returns (consumed: nat, stopped: bool)
      requires transcript == EMPTY && !writeFailed && !failed && warnings == 0
      modifies this
      ensures consumed <= |chunks| && transcript.received == |Flat(chunks[..consumed])|
      ensures !faulty ==> !writeFailed
      ensures !writeFailed ==> transcript == KeepAll(limit, chunks[..consumed])
      ensures !writeFailed ==> stopped == (stopAt <= |chunks|) && consumed == if stopAt <= |chunks| then stopAt else |chunks|
      ensures !writeFailed ==> warnings == (if transcript.truncated then 1 else 0) && (failed <==> lost && !stopped)
      ensures writeFailed ==> failed && IsPrefix(transcript.file, Flat(chunks[..consumed]))
      ensures transcript.retained == |transcript.file| <= limit
      ensures transcript.truncated <==> transcript.received > limit
    {
      var warned := false;
      consumed, stopped := 0, false;
      hide Keep, Flat, KeepAll, IsPrefix;
      assert chunks[..0] == [];
      NothingYet(limit);
      while consumed < |chunks|
        invariant 0 <= consumed <= |chunks| && consumed <= stopAt && !writeFailed && !failed && !stopped
        invariant transcript == KeepAll(limit, chunks[..consumed])
        invariant warned == transcript.truncated && warnings == (if warned then 1 else 0)
      {
        KeptSoFar(limit, chunks[..consumed]);
        KeptSoFar(limit, chunks[..consumed + 1]);
        KeepNext(limit, chunks, consumed);
        if consumed == stopAt {
          stopped := true;
          return;
        }
        consumed := consumed + 1;
        Accept(chunks[consumed - 1], faulty);
        if writeFailed {
          failed := true;
          PrefixOfPrefix(transcript.file, KeepAll(limit, chunks[..consumed]).file, Flat(chunks[..consumed]));
          return;
        }
        if transcript.truncated && !warned {
          warned := true;
          warnings := warnings + 1;
        }
      }
      assert chunks[..|chunks|] == chunks;
      KeptSoFar(limit, chunks);
      stopped := consumed == stopAt;
      if !stopped && lost {
        failed := true;
      }
    }

    // Stop's verdict on the transcript.
    method Verdict(jobFailed: bool) returns (state: State)
      ensures state == Complete ==> !failed && !writeFailed && !transcript.truncated
      ensures state == Truncated ==> !failed && !writeFailed && transcript.truncated
      ensures state == Failed <==> jobFailed || failed || writeFailed
    {
      if jobFailed || writeFailed || failed {
        state := Failed;
      } else if transcript.truncated {
        state := Truncated;
      } else {
        state := Complete;
      }
    }
  }

  // A complete transcript is everything that was received.
  method CaptureAll(limit: nat, chunks: seq<Bytes>, lost: bool, stopAt: nat, faulty: bool, jobFailed: bool) returns (state: State, file: Bytes, consumed: nat)
    ensures consumed <= |chunks| && |file| <= limit
    ensures state == Complete ==> file == Flat(chunks[..consumed])
    ensures state == Truncated ==> limit < |Flat(chunks[..consumed])| && file == Flat(chunks[..consumed])[..limit]
    ensures IsPrefix(file, Flat(chunks[..consumed]))
    ensures !faulty && !jobFailed && (!lost || stopAt <= |chunks|) ==> state != Failed && consumed == if stopAt <= |chunks| then stopAt else |chunks|
  {
    var capture := new Capture(limit);
    var stopped;
    consumed, stopped := capture.Record(chunks, lost, stopAt, faulty);
    TranscriptIsPrefix(limit, chunks[..consumed]);
    state := capture.Verdict(jobFailed);
    file := capture.transcript.file;
  }
}
