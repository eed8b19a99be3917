/**
 The manager object of internal/jobs/manager.go and internal/jobs/retention.go.

 Each method is one critical section of the source, or a loop of disk operations; its contract names
 the steps of `JobService` it takes.  A loop returns them as a trace: since every prefix of a legal
 trace is legal, a crash between any two disk operations is one of the runs of `JobHistory`.
 Errors of the disk are arbitrary.
 */
module JobManager {
  import opened Text
  import opened JobService
  import opened JobHistory

  lemma LegalThen(w: World, actions: seq<Action>, a: Action)
    requires Legal(w, actions) && Enabled(Run(w, actions), a)
    ensures Legal(w, actions + [a]) && Run(w, actions + [a]) == Apply(Run(w, actions), a)
  {
    hide Enabled, Apply;
    var last := Run(w, actions);
    assert [a][1..] == [] && Legal(Apply(last, a), []);
    assert Legal(last, [a]) && Run(last, [a]) == Apply(last, a);
    LegalConcat(w, actions, [a]);
  }

  class Manager {
    var disk: Disk
    var running: bool
    var jobs: map<JobId, Job>
    var submissions: map<RequestId, JobId>
    var expired: map<RequestId, Tombstone>
    var cancellers: map<JobId, bool>
    var queue: seq<JobId>
    var latched: bool
    var stopping: bool
    // Where the lock holders and the worker are.
    ghost var gate: Gate
    ghost var worker: Worker
    ghost var history: History

    // A process that has not opened its store.
    constructor (disk: Disk, ghost history: History)
      ensures View() == World(disk, None, history)
    {
      this.disk, this.history, running := disk, history, false;
      jobs, submissions, expired, cancellers, queue := map[], map[], map[], map[], [];
      latched, stopping, gate, worker := false, false, Free, Idle;
    }

    ghost function View(): World
      reads this
    {
      World(disk, if running then Some(Memory(jobs, submissions, expired, cancellers, queue, latched, stopping, gate, worker)) else None,
            history)
    }

    // The first part of CreateSubmissionContext, up to the admission of new work.
    method BeginSubmission(request: Request) returns (verdict: Verdict)
      requires Inv(View()) && running && gate == Free
      modifies this
      ensures verdict == Judge(old(View()).up.value, request)
      ensures View() == if verdict == Proceed then Apply(old(View()), Admit(request)) else old(View())
    {
      hide Inv;
      var rid := request.requestId;
      if rid != "" && !HexId(rid) {
        return BadRequestId;
      }
      if latched {
        return Refused;
      }
      if rid != "" {
        if rid in expired {
          if expired[rid].fingerprint != Fingerprint(request) {
            return Conflict;
          }
          return Expired(expired[rid].jobId);
        }
        if rid in submissions {
          SubmissionsAreJobs(View());
          var original := jobs[submissions[rid]].request;
          if original != request {
            return Conflict;
          }
          return Replay(submissions[rid]);
        }
      }
      if stopping {
        return ShuttingDown;
      }
      gate := Admitting(request, false);
      return Proceed;
    }

    // createContext before it touches the disk: nothing is recorded when it declines.
    method CheckSubmission(valid: bool) returns (accepted: bool)
      requires running && gate.Admitting? && !gate.roomChecked
      modifies this`gate
      ensures accepted <==> |queue| < QUEUE_CAPACITY && valid
      ensures View() == if accepted then Apply(old(View()), CheckRoom) else Apply(old(View()), Decline)
    {
      if |queue| >= QUEUE_CAPACITY || !valid {
        gate := Free;
        return false;
      }
      gate := gate.(roomChecked := true);
      return true;
    }

    // createContext's critical section: the job becomes durable, or admission is latched.
    method PublishJob(id: JobId, request: Request, landing: Landing) returns (ok: bool)
      requires Inv(View()) && running && Enabled(View(), Publish(id, landing)) && gate.request == request
      modifies this
      ensures ok <==> landing == Landed
      ensures View() == Apply(old(View()), Publish(id, landing))
      ensures ok ==> jobs == old(jobs)[id := Job(request, Queued)] && gate == Enqueuing(id) && latched == old(latched)
      ensures ok && request.requestId != "" ==> submissions == old(submissions)[request.requestId := id]
      ensures !ok ==> latched && gate == Free && jobs == old(jobs) && submissions == old(submissions)
      ensures disk == if landing == Absent then old(disk) else old(disk).(published := old(disk).published[id := Job(request, Queued)])
      ensures history.created == if landing == Absent then old(history).created else old(history).created[id := request]
    {
      hide Inv, Enabled, Apply;
      UnusedIsUnknown(View(), View().up.value, id, landing);
      PublishIs(View(), View().up.value, id, landing);
      var job := Job(request, Queued);
      jobs := jobs[id := job];
      history := history.(used := history.used + {id});
      if landing != Absent {
        disk := disk.(published := disk.published[id := job]);
        history := history.(created := history.created[id := request]);
      }
      if landing != Landed {
        jobs := jobs - {id};
        assert jobs == old(jobs);
        latched := true;
        gate := Free;
        return false;
      }
      if request.requestId != "" {
        submissions := submissions[request.requestId := id];
      }
      gate := Enqueuing(id);
      return true;
    }

    // The send that ends an admission; the invariant makes room certain.
    method EnqueueJob(id: JobId, dropped: bool)
      requires Inv(View()) && running && gate == Enqueuing(id) && (dropped ==> stopping)
      modifies this
      ensures Enabled(old(View()), Enqueue(dropped)) && View() == Apply(old(View()), Enqueue(dropped))
      ensures gate == Free && queue == (if dropped then old(queue) else old(queue) + [id])
      ensures history.enqueued == if dropped then old(history).enqueued else old(history).enqueued + [id]
    {
      RoomIsCertain(View());
      if !dropped {
        queue := queue + [id];
        history := history.(enqueued := history.enqueued + [id]);
      }
      gate := Free;
    }

    method PickJob() returns (id: JobId)
      requires running && worker == Idle && queue != []
      modifies this
      ensures worker == Picked(id) && View() == Apply(old(View()), Pick)
      ensures old(queue) == [id] + queue
    {
      id := queue[0];
      queue := queue[1..];
      worker := Picked(id);
    }

    // The opening of `run`.
    method StartJob(id: JobId, saved: bool) returns (started: bool)
      requires running && worker == Picked(id)
      modifies this
      ensures started <==> id in old(jobs) && old(jobs)[id].state == Queued
      ensures View() == Apply(old(View()), Start(saved))
      ensures started ==> worker == Executing(id) && jobs == old(jobs)[id := old(jobs)[id].(state := Running)]
      ensures started ==> cancellers == old(cancellers)[id := old(stopping)] && history.executed == old(history).executed + [id]
      ensures started && saved ==> id in disk.published && disk.published[id] == jobs[id]
      ensures !started ==> worker == Idle && jobs == old(jobs) && disk == old(disk) && history == old(history)
    {
      if id !in jobs || jobs[id].state != Queued {
        worker := Idle;
        return false;
      }
      cancellers := cancellers[id := stopping];
      jobs := jobs[id := jobs[id].(state := Running)];
      if saved {
        disk := disk.(published := disk.published[id := jobs[id]]);
      }
      worker := Executing(id);
      history := history.(executed := history.executed + [id]);
      return true;
    }

    // The close of `run`: a cancellation accepted before terminal publication is honored, and otherwise
    // the result is what becomes of the job.
    method FinishJob(id: JobId, result: JobState, saved: bool)
      requires running && worker == Executing(id) && Enabled(View(), Finish(result, saved))
      modifies this
      ensures View() == Apply(old(View()), Finish(result, saved))
      ensures jobs == old(jobs)[id := old(jobs)[id].(state := if old(cancellers)[id] then Canceled else result)]
      ensures disk == if saved then old(disk).(published := old(disk).published[id := jobs[id]]) else old(disk)
      ensures worker == Idle && id !in cancellers && history == old(history)
    {
      var final := if cancellers[id] then Canceled else result;
      cancellers := cancellers - {id};
      jobs := jobs[id := jobs[id].(state := final)];
      if saved {
        disk := disk.(published := disk.published[id := jobs[id]]);
      }
      worker := Idle;
    }

    method CancelJob(id: JobId, saved: bool) returns (found: bool)
      requires running
      modifies this
      ensures found <==> id in old(jobs)
      ensures found && old(jobs)[id].state.Terminal() ==> jobs == old(jobs) && cancellers == old(cancellers) && disk == old(disk)
      ensures found && !old(jobs)[id].state.Terminal() && id in old(cancellers) ==> cancellers == old(cancellers)[id := true] && jobs == old(jobs)
      ensures found && !old(jobs)[id].state.Terminal() && id !in old(cancellers) ==>
        jobs == old(jobs)[id := old(jobs)[id].(state := Canceled)] && (saved ==> id in disk.published && disk.published[id] == jobs[id])
      ensures View() == if found then Apply(old(View()), Cancel(id, saved)) else old(View())
    {
      if id !in jobs {
        return false;
      }
      if jobs[id].state.Terminal() {
        return true;
      }
      history := history.(canceled := history.canceled + {id});
      if id in cancellers {
        cancellers := cancellers[id := true];
      } else {
        jobs := jobs[id := jobs[id].(state := Canceled)];
        if saved {
          disk := disk.(published := disk.published[id := jobs[id]]);
        }
      }
      return true;
    }

    // writeTombstone and the memory update that follows its success.
    method EntombJob(id: JobId, landing: Landing)
      requires running && Prunable(View().up.value, id) && jobs[id].request.requestId != ""
      modifies this`disk, this`expired, this`submissions
      ensures Enabled(old(View()), Entomb(id, landing)) && View() == Apply(old(View()), Entomb(id, landing))
      ensures old(expired).Keys <= expired.Keys && disk.published == old(disk).published
      ensures landing == Landed ==> jobs[id].request.requestId in expired
    {
      hide Judge, HexId;
      var request := jobs[id].request;
      var t := Tombstone(id, Fingerprint(request));
      if landing != Absent {
        disk := disk.(tombstones := disk.tombstones[request.requestId := t]);
      }
      if landing == Landed {
        expired := expired[request.requestId := t];
        submissions := submissions - {request.requestId};
      }
    }

    // removeKnownJob: the record goes first.
    method UnlinkJob(id: JobId)
      requires running && Prunable(View().up.value, id) && Journaled(View().up.value, id)
      modifies this`disk
      ensures Enabled(old(View()), Unlink(id)) && View() == Apply(old(View()), Unlink(id))
      ensures disk == old(disk).(published := old(disk).published - {id})
    {
      disk := disk.(published := disk.published - {id});
    }

    method ForgetJob(id: JobId)
      requires running && Prunable(View().up.value, id) && Journaled(View().up.value, id) && id !in disk.published
      modifies this`jobs
      ensures Enabled(old(View()), Forget(id)) && View() == Apply(old(View()), Forget(id)) && jobs == old(jobs) - {id}
    {
      jobs := jobs - {id};
    }

    // One turn of the pruning loop.  On a faulty disk a write may fail, having landed or not, and a
    // removal may stop half way.
    method PruneOne(id: JobId, faulty: bool) returns (ok: bool, ghost trace: seq<Action>)
      requires Inv(View()) && running && MayClean(gate) && id in jobs && jobs[id].state.Terminal()
      modifies this
      ensures Legal(old(View()), trace) && View() == Run(old(View()), trace) && Inv(View())
      ensures running && gate == old(gate) && old(expired).Keys <= expired.Keys
      ensures !faulty ==> ok
      ensures jobs == if ok then old(jobs) - {id} else old(jobs)
      ensures disk.published == old(disk).published || disk.published == old(disk).published - {id}
      ensures ok ==> id !in disk.published && (old(jobs)[id].request.requestId == "" || old(jobs)[id].request.requestId in expired)
    {
      hide Inv, Legal, Run, Enabled, Apply;
      EmptyTrace(View());
      ghost var start := View();
      trace := [];
      if jobs[id].request.requestId != "" {
        var landing: Landing := *;
        if !faulty {
          landing := Landed;
        }
        EntombJob(id, landing);
        trace := Extend(start, trace, start, Entomb(id, landing));
        if landing != Landed {
          return false, trace;
        }
      }
      var unlinkFails, removalFails := *, *;
      if faulty && unlinkFails {
        return false, trace;
      }
      ghost var entombed := View();
      UnlinkJob(id);
      trace := Extend(start, trace, entombed, Unlink(id));
      if faulty && removalFails {
        return false, trace;
      }
      ghost var bare := View();
      ForgetJob(id);
      trace := Extend(start, trace, bare, Forget(id));
      return true, trace;
    }

    // The pruning loop of cleanupLocked: tombstone first, then the record, then memory.
    method Prune(ids: seq<JobId>, faulty: bool) returns (ok: bool, ghost trace: seq<Action>)
      requires Inv(View()) && running && MayClean(gate) && NoRepeat(ids)
      requires forall id <- ids :: id in jobs && jobs[id].state.Terminal()
      modifies this
      ensures Legal(old(View()), trace) && View() == Run(old(View()), trace) && Inv(View())
      ensures running && (forall id <- jobs :: id in old(jobs) && jobs[id] == old(jobs)[id])
      ensures forall id <- old(jobs) :: id in jobs || id in ids
      ensures !faulty ==> ok
      ensures ok ==> forall id <- ids :: id !in jobs && id !in disk.published
      ensures ok ==> forall id <- ids :: old(jobs)[id].request.requestId == "" || old(jobs)[id].request.requestId in disk.tombstones
    {
      hide Inv, Legal, Run, HexId, Judge, Prunable;
      EmptyTrace(View());
      trace := [];
      for i := 0 to |ids|
        invariant Legal(old(View()), trace) && View() == Run(old(View()), trace) && Inv(View())
        invariant running && MayClean(gate)
        invariant forall id <- jobs :: id in old(jobs) && jobs[id] == old(jobs)[id]
        invariant forall id <- old(jobs) :: id in jobs <==> id !in ids[..i]
        invariant forall id <- ids[..i] ::
          id !in disk.published && (old(jobs)[id].request.requestId == "" || old(jobs)[id].request.requestId in expired)
      {
        assert ids[i] !in ids[..i] && ids[..i + 1] == ids[..i] + [ids[i]];
        ghost var steps;
        ok, steps := PruneOne(ids[i], faulty);
        LegalConcat(old(View()), trace, steps);
        trace := trace + steps;
        if !ok {
          return;
        }
      }
      assert ids[..|ids|] == ids;
      ExpiredIsDurable(View());
      ok := true;
    }

    method DropJob(id: JobId)
      requires !running && id in disk.published && disk.published[id].request.requestId in disk.tombstones && MatchesTombstone(disk, id)
      modifies this`disk
      ensures Enabled(old(View()), Drop(id)) && View() == Apply(old(View()), Drop(id))
      ensures disk == old(disk).(published := old(disk).published - {id})
    {
      disk := disk.(published := disk.published - {id});
    }

    // A job found queued or running failed when the station stopped.
    method InterruptJob(id: JobId, job: Job)
      requires !running && id in disk.published && !disk.published[id].state.Terminal()
      requires disk.published[id].request.requestId !in disk.tombstones && job == disk.published[id].(state := Failed)
      modifies this`disk
      ensures Enabled(old(View()), Interrupt(id)) && View() == Apply(old(View()), Interrupt(id))
      ensures disk == old(disk).(published := old(disk).published[id := job])
    {
      disk := disk.(published := disk.published[id := job]);
    }

    // One turn of the loop in `load`; on a faulty disk a read, a removal or a write may fail.
    method LoadOne(id: JobId, faulty: bool, ghost read: seq<JobId>) returns (ok: bool, ghost trace: seq<Action>)
      requires Inv(View()) && !running && id in disk.published && id !in read && expired == disk.tombstones
      requires LoadedFrom(jobs, submissions, disk, read)
      modifies this`disk, this`jobs, this`submissions
      ensures Legal(old(View()), trace) && View() == Run(old(View()), trace) && Inv(View())
      ensures !faulty ==> ok
      ensures disk.tombstones == old(disk).tombstones && SameBut(disk.published, old(disk).published, id)
      ensures ok ==> LoadedFrom(jobs, submissions, disk, read + [id])
      ensures ok ==> if old(disk).published[id].request.requestId in expired then id !in disk.published
                     else id in disk.published && disk.published[id].request == old(disk).published[id].request
    {
      hide Inv, Legal, Run, HexId, Enabled, Apply, LoadedFrom;
      EmptyTrace(View());
      LoadedNames(jobs, submissions, disk, read, id);
      trace := [];
      var unreadable := *;
      if faulty && unreadable {
        return false, trace;
      }
      ghost var before := View();
      StoreIsSound(before);
      var job := disk.published[id];
      var rid := job.request.requestId;
      if rid in expired {
        if expired[rid] != Tombstone(id, Fingerprint(job.request)) {
          return false, trace;
        }
        LoadedWithout(jobs, submissions, disk, read, id);
        DropJob(id);
        trace := Extend(before, trace, before, Drop(id));
        var removalFails := *;
        return !(faulty && removalFails), trace;
      }
      if rid != "" && (!HexId(rid) || rid in submissions) {
        return false, trace;
      }
      if !job.state.Terminal() {
        var landing: Landing := *;
        if !faulty {
          landing := Landed;
        }
        job := job.(state := Failed);
        if landing != Absent {
          LoadedElsewhere(jobs, submissions, disk, read, id, job);
          InterruptJob(id, job);
          trace := Extend(before, trace, before, Interrupt(id));
        }
        if landing != Landed {
          return false, trace;
        }
      }
      LoadedWith(jobs, submissions, disk, read, id);
      if rid != "" {
        submissions := submissions[rid := id];
      }
      jobs := jobs[id := job];
      return true, trace;
    }

    // The loop of `load`.  `entries` is what the job directory lists.
    method ReadEntries(entries: seq<JobId>, faulty: bool) returns (ok: bool, ghost trace: seq<Action>)
      requires Inv(View()) && !running && NoRepeat(entries) && (forall id :: id in entries <==> id in disk.published)
      requires expired == disk.tombstones && jobs == map[] && submissions == map[]
      modifies this`disk, this`jobs, this`submissions
      ensures Legal(old(View()), trace) && View() == Run(old(View()), trace) && Inv(View())
      ensures !faulty ==> ok
      ensures disk.tombstones == old(disk).tombstones
      ensures ok ==> Progress(disk.published, old(disk).published, expired, entries, |entries|)
      ensures ok ==> LoadedFrom(jobs, submissions, disk, entries)
    {
      hide Inv, Legal, Run, Enabled, Apply, LoadedFrom, SameBut, Progress, NoRepeat, HexId, UniqueRequests;
      EmptyTrace(View());
      trace := [];
      NothingRead(disk, expired, entries);
      assert entries[..0] == [];
      for i := 0 to |entries|
        invariant Legal(old(View()), trace) && View() == Run(old(View()), trace) && Inv(View())
        invariant disk.tombstones == old(disk).tombstones
        invariant Progress(disk.published, old(disk).published, expired, entries, i)
        invariant LoadedFrom(jobs, submissions, disk, entries[..i])
      {
        var id := entries[i];
        StillUnread(disk.published, old(disk).published, expired, entries, i);
        assert entries[..i + 1] == entries[..i] + [id];
        ghost var published := disk.published;
        ghost var steps;
        ok, steps := LoadOne(id, faulty, entries[..i]);
        LegalConcat(old(View()), trace, steps);
        trace := trace + steps;
        if !ok {
          return;
        }
        ProgressStep(published, disk.published, old(disk).published, expired, entries, i);
      }
      assert entries[..|entries|] == entries;
      return true, trace;
    }

    // loadTombstones and load.
    method Load(entries: seq<JobId>, faulty: bool) returns (ok: bool, ghost trace: seq<Action>)
      requires Inv(View()) && !running && NoRepeat(entries) && (forall id :: id in entries <==> id in disk.published)
      modifies this
      ensures Legal(old(View()), trace) && View() == Run(old(View()), trace)
      // On every disk that satisfies the invariant only the disk itself can make recovery fail.
      ensures !faulty ==> ok
      ensures ok ==> running && trace != [] && trace[|trace| - 1] == Open
      ensures ok ==> disk.tombstones == old(disk).tombstones && Recovered(jobs, old(disk))
    {
      hide Inv, Legal, Run, Enabled, Apply, LoadedFrom, Progress, Recovered, NoRepeat, HexId, UniqueRequests, Loadable;
      jobs, submissions, cancellers, queue, latched, stopping := map[], map[], map[], [], false, false;
      gate, worker := Free, Idle;
      expired := disk.tombstones;
      ok, trace := ReadEntries(entries, faulty);
      if ok {
        ghost var loaded := View();
        AllRecovered(jobs, submissions, disk, old(disk), entries);
        LoadedIsOpen(entries, loaded);
        running := true;
        LegalThen(old(View()), trace, Open);
        trace := trace + [Open];
      }
    }

    lemma LoadedIsOpen(entries: seq<JobId>, w: World)
      requires LoadedFrom(jobs, submissions, disk, entries) && expired == disk.tombstones && w == View() && w.up == None
      requires cancellers == map[] && queue == [] && !latched && !stopping && gate == Free && worker == Idle
      requires forall id <- disk.published :: id in entries
      ensures Enabled(w, Open) && Apply(w, Open).disk == disk && Apply(w, Open).history == history
      ensures Apply(w, Open).up == Some(Memory(jobs, submissions, expired, cancellers, queue, latched, stopping, gate, worker))
    {
      hide HexId;
      assert jobs == disk.published;
      forall a <- disk.published, b <- disk.published
        | Requests(disk.published)[a].requestId == Requests(disk.published)[b].requestId && Requests(disk.published)[a].requestId != ""
        ensures a == b
      {
        assert jobs[a].request.requestId == jobs[b].request.requestId;
      }
      var index := JobService.Submissions(disk.published);
      assert forall rid <- index :: rid in submissions && submissions[rid] == index[rid];
      assert forall rid <- submissions :: rid in index;
      assert submissions == index;
    }
  }

  // ----- Ghost help ---------------------------------------------------------------------------------

  // What `load` has gathered from the entries read so far.
  ghost predicate LoadedFrom(jobs: map<JobId, Job>, submissions: map<RequestId, JobId>, disk: Disk, read: seq<JobId>) {
    && jobs == (map id | id in disk.published && id in read :: disk.published[id])
    && (forall id <- jobs :: jobs[id].state.Terminal() && jobs[id].request.requestId !in disk.tombstones)
    && (forall id <- jobs :: jobs[id].request.requestId == "" ||
         (HexId(jobs[id].request.requestId) && jobs[id].request.requestId in submissions && submissions[jobs[id].request.requestId] == id))
    && (forall rid <- submissions :: rid != "" && submissions[rid] in jobs && jobs[submissions[rid]].request.requestId == rid)
  }

  // Taking in one more entry: removed from the disk, or already terminal, or made so.
  lemma LoadedWithout(jobs: map<JobId, Job>, submissions: map<RequestId, JobId>, disk: Disk, read: seq<JobId>, id: JobId)
    requires LoadedFrom(jobs, submissions, disk, read) && id !in read
    ensures LoadedFrom(jobs, submissions, disk.(published := disk.published - {id}), read + [id])
  {
    hide HexId;
  }

  lemma LoadedElsewhere(jobs: map<JobId, Job>, submissions: map<RequestId, JobId>, disk: Disk, read: seq<JobId>, id: JobId, job: Job)
    requires LoadedFrom(jobs, submissions, disk, read) && id !in read
    ensures LoadedFrom(jobs, submissions, disk.(published := disk.published[id := job]), read)
  {
    hide HexId;
    var published := disk.published[id := job];
    assert jobs == map e | e in published && e in read :: published[e];
  }

  lemma LoadedWith(jobs: map<JobId, Job>, submissions: map<RequestId, JobId>, disk: Disk, read: seq<JobId>, id: JobId)
    requires LoadedFrom(jobs, submissions, disk, read) && id in disk.published && id !in read
    requires disk.published[id].state.Terminal() && disk.published[id].request.requestId !in disk.tombstones
    requires var rid := disk.published[id].request.requestId; rid !in submissions && (rid == "" || HexId(rid))
    ensures var rid := disk.published[id].request.requestId;
      LoadedFrom(jobs[id := disk.published[id]], if rid == "" then submissions else submissions[rid := id], disk, read + [id])
  {
    hide HexId;
    var more := read + [id];
    assert jobs[id := disk.published[id]] == map e | e in disk.published && e in more :: disk.published[e];
    assert id !in jobs;
  }

  // A second record with the same request ID would have to be this one.
  lemma LoadedNames(jobs: map<JobId, Job>, submissions: map<RequestId, JobId>, disk: Disk, read: seq<JobId>, id: JobId)
    requires LoadedFrom(jobs, submissions, disk, read) && id !in read
    ensures "" !in submissions
    ensures forall rid <- submissions ::
      submissions[rid] != id && submissions[rid] in disk.published && disk.published[submissions[rid]].request.requestId == rid
  {
    hide HexId;
  }

  // The first `i` entries are settled, the others are as they were.
  ghost predicate Progress(now: map<JobId, Job>, was: map<JobId, Job>, expired: map<RequestId, Tombstone>, entries: seq<JobId>, i: nat)
    requires i <= |entries| && forall id <- entries :: id in was
  {
    && (forall id <- now :: id in entries)
    && (forall j | i <= j < |entries| :: entries[j] in now && now[entries[j]] == was[entries[j]])
    && (forall j | 0 <= j < i ::
          if was[entries[j]].request.requestId in expired then entries[j] !in now
          else entries[j] in now && now[entries[j]].request == was[entries[j]].request)
  }

  // Every accepted job is back in a terminal state, unless its prune journal says it is gone.
  ghost predicate Recovered(jobs: map<JobId, Job>, was: Disk) {
    && (forall id <- jobs :: id in was.published && jobs[id].state.Terminal())
    && forall id <- was.published ::
         if was.published[id].request.requestId in was.tombstones then id !in jobs
         else id in jobs && jobs[id].request == was.published[id].request
  }

  lemma AllRecovered(jobs: map<JobId, Job>, submissions: map<RequestId, JobId>, disk: Disk, was: Disk, entries: seq<JobId>)
    requires LoadedFrom(jobs, submissions, disk, entries) && disk.tombstones == was.tombstones
    requires (forall id :: id in entries <==> id in was.published) && Progress(disk.published, was.published, was.tombstones, entries, |entries|)
    ensures Recovered(jobs, was) && forall id <- disk.published :: id in entries
  {
    hide HexId;
    forall id <- was.published
      ensures if was.published[id].request.requestId in was.tombstones then id !in jobs
              else id in jobs && jobs[id].request == was.published[id].request
    {
      var j :| 0 <= j < |entries| && entries[j] == id;
    }
  }

  lemma ProgressStep(now: map<JobId, Job>, next: map<JobId, Job>, was: map<JobId, Job>, expired: map<RequestId, Tombstone>,
    entries: seq<JobId>, i: nat)
    requires i < |entries| && NoRepeat(entries) && (forall id <- entries :: id in was)
    requires Progress(now, was, expired, entries, i) && SameBut(next, now, entries[i])
    requires if was[entries[i]].request.requestId in expired then entries[i] !in next
             else entries[i] in next && next[entries[i]].request == was[entries[i]].request
    ensures Progress(next, was, expired, entries, i + 1)
  {
  }

  lemma NothingRead(disk: Disk, expired: map<RequestId, Tombstone>, entries: seq<JobId>)
    requires forall id :: id in entries <==> id in disk.published
    ensures Progress(disk.published, disk.published, expired, entries, 0) && LoadedFrom(map[], map[], disk, [])
  {
  }

  lemma StillUnread(now: map<JobId, Job>, was: map<JobId, Job>, expired: map<RequestId, Tombstone>, entries: seq<JobId>, i: nat)
    requires i < |entries| && NoRepeat(entries) && (forall id <- entries :: id in was) && Progress(now, was, expired, entries, i)
    ensures entries[i] in now && now[entries[i]] == was[entries[i]] && entries[i] !in entries[..i]
  {
  }

  ghost predicate SameBut(a: map<JobId, Job>, b: map<JobId, Job>, id: JobId) {
    forall e: JobId | e != id :: (e in a <==> e in b) && (e in a ==> a[e] == b[e])
  }

  lemma UnusedIsUnknown(w: World, m: Memory, id: JobId, landing: Landing)
    requires Inv(w) && w.up == Some(m) && Enabled(w, Publish(id, landing))
    ensures id !in m.jobs
  {
    assert id !in w.history.used;
    hide Inv, Enabled;
    KnownJob(w, m, id);
  }

  lemma PublishIs(w: World, m: Memory, id: JobId, landing: Landing)
    requires w.up == Some(m) && Enabled(w, Publish(id, landing))
    ensures m.gate.Admitting?
    ensures var r := m.gate.request;
      var job := Job(r, Queued);
      var disk := if landing == Absent then w.disk else w.disk.(published := w.disk.published[id := job]);
      var history := w.history.(used := w.history.used + {id}, created := if landing == Absent then w.history.created else w.history.created[id := r]);
      var index := if r.requestId == "" then m.submissions else m.submissions[r.requestId := id];
      Apply(w, Publish(id, landing)) ==
      World(disk, Some(if landing == Landed then m.(jobs := m.jobs[id := job], gate := Enqueuing(id), submissions := index) else m.(latched := true, gate := Free)), history)
  {
    hide HexId, Judge;
  }

  lemma EmptyTrace(w: World)
    ensures Legal(w, []) && Run(w, []) == w
  {
  }

  ghost method Extend(start: World, trace: seq<Action>, before: World, a: Action) returns (longer: seq<Action>)
    requires Legal(start, trace) && before == Run(start, trace) && Inv(before) && Enabled(before, a)
    ensures longer == trace + [a] && Legal(start, longer) && Run(start, longer) == Apply(before, a) && Inv(Apply(before, a))
  {
    hide Inv, Legal, Run, Enabled, Apply;
    LegalThen(start, trace, a);
    StepKeeps(before, a);
    longer := trace + [a];
  }

  lemma SubmissionsAreJobs(w: World)
    requires Inv(w) && w.up.Some?
    ensures forall rid <- w.up.value.submissions :: w.up.value.submissions[rid] in w.up.value.jobs
  {
    hide HistoryInv, RecordsInv, JobsInv, GateInv, LifeInv;
  }

  lemma RoomIsCertain(w: World)
    requires Inv(w) && w.up.Some? && w.up.value.gate.Enqueuing?
    ensures |w.up.value.queue| < QUEUE_CAPACITY
  {
    hide HistoryInv, RecordsInv, JobsInv, IndexInv, LifeInv;
  }

  lemma ExpiredIsDurable(w: World)
    requires Inv(w) && w.up.Some?
    ensures w.up.value.expired.Keys <= w.disk.tombstones.Keys
  {
    hide HistoryInv, RecordsInv, JobsInv, GateInv, LifeInv;
  }

  // The facts the start-up checks look for.
  lemma StoreIsSound(w: World)
    requires Inv(w)
    ensures forall id <- w.disk.published ::
      && (w.disk.published[id].request.requestId == "" || HexId(w.disk.published[id].request.requestId))
      && (w.disk.published[id].request.requestId in w.disk.tombstones ==> MatchesTombstone(w.disk, id))
    ensures forall a <- w.disk.published, b <- w.disk.published ::
      w.disk.published[a].request.requestId == w.disk.published[b].request.requestId && w.disk.published[a].request.requestId != "" ==> a == b
  {
    hide HexId, MemoryInv;
    forall id <- w.disk.published | w.disk.published[id].request.requestId in w.disk.tombstones
      ensures MatchesTombstone(w.disk, id)
    {
      SameTombstone(w, w.disk.published[id].request.requestId, id);
    }
  }
}
