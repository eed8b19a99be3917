/**
 What the durable job service guarantees over whole runs: every interleaving of submissions, work,
 cancellation, pruning, failed publications, crashes and restarts.
 */
module JobHistory {
  import opened Text
  import opened JobService

  // ----- History only grows -----------------------------------------------------------------

  ghost predicate Extends(h: History, h': History) {
    && (forall id <- h.created :: id in h'.created && h'.created[id] == h.created[id])
    && h.enqueued <= h'.enqueued && h.executed <= h'.executed && h.used <= h'.used
  }

  lemma StepExtends(w: World, a: Action)
    requires Inv(w) && Enabled(w, a)
    ensures Extends(w.history, Apply(w, a).history)
  {
    hide UniqueRequests, HexId, RecordsInv, MemoryInv, Judge, Loadable;
  }

  lemma {:induction false} RunExtends(w: World, actions: seq<Action>)
    requires Inv(w) && Legal(w, actions)
    ensures Extends(w.history, Run(w, actions).history)
    decreases |actions|
  {
    hide Inv, Enabled, Apply;
    if actions != [] {
      StepExtends(w, actions[0]);
      StepKeeps(w, actions[0]);
      RunExtends(Apply(w, actions[0]), actions[1..]);
    }
  }

  ghost predicate Reachable(w: World) {
    exists actions :: Legal(INITIAL, actions) && Run(INITIAL, actions) == w
  }

  lemma ReachableInv(w: World)
    requires Reachable(w)
    ensures Inv(w)
  {
    hide Inv;
    var actions :| Legal(INITIAL, actions) && Run(INITIAL, actions) == w;
    InitialInv();
    RunKeeps(INITIAL, actions);
  }

  // ----- At most once --------------------------------------------------------------------------

  // The request ID under which a job was accepted.
  ghost predicate AcceptedAs(h: History, id: JobId, rid: RequestId) {
    rid != "" && id in h.created && h.created[id].requestId == rid
  }

  // Over all runs, an accepted request ID never gets a second durable job, a second place in the
  // queue or a second execution; nor does any job.
  lemma AtMostOnce(w: World, actions: seq<Action>, id: JobId, rid: RequestId)
    requires Reachable(w) && Legal(w, actions) && AcceptedAs(w.history, id, rid)
    ensures var h := Run(w, actions).history;
      && AcceptedAs(h, id, rid) && h.created[id] == w.history.created[id]
      && (forall other :: AcceptedAs(h, other, rid) ==> other == id)
      && NoRepeat(h.enqueued) && NoRepeat(h.executed)
      && (forall i | 0 <= i < |h.executed| :: h.executed[i] in h.created)
      && (forall i, j | 0 <= i < j < |h.executed| && AcceptedAs(h, h.executed[i], rid) :: !AcceptedAs(h, h.executed[j], rid))
      && (forall i, j | 0 <= i < j < |h.enqueued| && AcceptedAs(h, h.enqueued[i], rid) :: !AcceptedAs(h, h.enqueued[j], rid))
  {
    hide HexId, RecordsInv, MemoryInv, Enabled, Apply;
    ReachableInv(w);
    RunExtends(w, actions);
    RunKeeps(w, actions);
  }

  // The disk never forgets an accepted request ID: its record or a tombstone naming it is there,
  // whatever crashed and wherever.
  lemma DiskRemembers(w: World, id: JobId, rid: RequestId)
    requires Reachable(w) && AcceptedAs(w.history, id, rid)
    ensures (id in w.disk.published && w.disk.published[id].request == w.history.created[id])
         || (rid in w.disk.tombstones && w.disk.tombstones[rid] == Tombstone(id, Fingerprint(w.history.created[id])))
  {
    hide HexId, MemoryInv;
    ReachableInv(w);
    if rid in w.disk.tombstones {
      SameTombstone(w, rid, id);
    }
  }

  // ----- The answer to a later submission ---------------------------------------------------------

  // With an accepted ID, a submission is answered from the accepted job and never proceeds.
  lemma AnswerToAccepted(w: World, m: Memory, id: JobId, r: Request)
    requires Reachable(w) && w.up == Some(m) && AcceptedAs(w.history, id, r.requestId)
    ensures Judge(m, r) ==
      if m.latched then Refused
      else if r != w.history.created[id] then Conflict
      else if r.requestId in m.expired then Expired(id) else Replay(id)
  {
    hide HexId, LifeInv, GateInv;
    ReachableInv(w);
    assert HexId(r.requestId);
    if !m.latched && r.requestId in m.expired {
      SameTombstone(w, r.requestId, id);
    }
  }

  // The record, the index and the journal hold nothing but what was accepted.
  lemma NothingIsInvented(w: World, m: Memory, rid: RequestId)
    requires Inv(w) && w.up == Some(m) && rid != ""
    ensures rid in m.submissions || rid in m.expired ==> exists id :: AcceptedAs(w.history, id, rid)
  {
    hide HexId, HistoryInv, GateInv, LifeInv;
    if rid in m.submissions {
      assert AcceptedAs(w.history, m.submissions[rid], rid);
    }
    if rid in m.expired {
      assert AcceptedAs(w.history, w.disk.tombstones[rid].jobId, rid);
    }
  }

  // A submission without an ID, or with a well-formed one under which nothing was ever accepted, goes on
  // to admission exactly while the station neither is latched nor stops; and a malformed ID never does.
  lemma AnswerToNew(w: World, m: Memory, r: Request)
    requires Reachable(w) && w.up == Some(m) && forall id :: !AcceptedAs(w.history, id, r.requestId)
    ensures r.requestId == "" || HexId(r.requestId) ==>
      && (Judge(m, r) == Proceed <==> !m.latched && !m.stopping)
      && (Judge(m, r) == ShuttingDown <==> !m.latched && m.stopping)
      && (Judge(m, r) == Refused <==> m.latched)
    ensures r.requestId != "" && !HexId(r.requestId) ==> Judge(m, r) == BadRequestId
  {
    ReachableInv(w);
    hide Inv, HexId;
    if r.requestId != "" {
      NothingIsInvented(w, m, r.requestId);
    }
  }

  // Any request can be served: a run that opens an empty station, admits it, publishes and enqueues its
  // job, and executes it to success.
  lemma AnyRequestCanSucceed(id: JobId, r: Request)
    requires HexId(id) && (r.requestId == "" || HexId(r.requestId))
    ensures var actions := SuccessfulRun(id, r);
      && Legal(INITIAL, actions)
      && var w := Run(INITIAL, actions);
      && w.up.Some? && w.up.value.jobs == map[id := Job(r, Succeeded)] && w.disk.published == map[id := Job(r, Succeeded)]
      && w.history.created == map[id := r] && w.history.enqueued == [id] && w.history.executed == [id]
      && (r.requestId != "" ==> Judge(w.up.value, r) == Replay(id))
  {
    hide HexId;
    OpeningSteps(r);
    PublishSteps(id, r);
    ExecutionSteps(id, r);
    var w2 := Opened(Admitting(r, true));
    var w3, w4 := Serving(id, r, Queued, Enqueuing(id), [], Idle, []), Serving(id, r, Queued, Free, [id], Idle, [id]);
    var w5, w6 := Serving(id, r, Queued, Free, [], Picked(id), [id]), Executed(id, r, Running, Executing(id), map[id := false]);
    hide Enabled, Apply, Opened, Serving, Executed;
    OneMore(w6, Finish(Succeeded, true), []);
    OneMore(w5, Start(true), [Finish(Succeeded, true)]);
    OneMore(w4, Pick, [Start(true), Finish(Succeeded, true)]);
    OneMore(w3, Enqueue(false), [Pick, Start(true), Finish(Succeeded, true)]);
    OneMore(w2, Publish(id, Landed), [Enqueue(false), Pick, Start(true), Finish(Succeeded, true)]);
    OneMore(Opened(Admitting(r, false)), CheckRoom, [Publish(id, Landed), Enqueue(false), Pick, Start(true), Finish(Succeeded, true)]);
    OneMore(Opened(Free), Admit(r), [CheckRoom, Publish(id, Landed), Enqueue(false), Pick, Start(true), Finish(Succeeded, true)]);
    OneMore(INITIAL, Open, [Admit(r), CheckRoom, Publish(id, Landed), Enqueue(false), Pick, Start(true), Finish(Succeeded, true)]);
    assert Run(INITIAL, SuccessfulRun(id, r)) == Executed(id, r, Succeeded, Idle, map[]);
    ExecutedIs(id, r);
  }

  function Opened(gate: Gate): World {
    World(Disk(map[], map[]), Some(Memory(map[], map[], map[], map[], [], false, false, gate, Idle)), History(map[], {}, [], [], {}))
  }

  function IndexOf(id: JobId, r: Request): map<RequestId, JobId> {
    if r.requestId == "" then map[] else map[r.requestId := id]
  }

  function Serving(id: JobId, r: Request, state: JobState, gate: Gate, queue: seq<JobId>, worker: Worker, enqueued: seq<JobId>): World {
    World(Disk(map[id := Job(r, state)], map[]), Some(Memory(map[id := Job(r, state)], IndexOf(id, r), map[], map[], queue, false, false, gate, worker)),
          History(map[id := r], {id}, enqueued, [], {}))
  }

  function Executed(id: JobId, r: Request, state: JobState, worker: Worker, cancellers: map<JobId, bool>): World {
    World(Disk(map[id := Job(r, state)], map[]), Some(Memory(map[id := Job(r, state)], IndexOf(id, r), map[], cancellers, [], false, false, Free, worker)),
          History(map[id := r], {id}, [id], [id], {}))
  }

  lemma OpeningSteps(r: Request)
    requires r.requestId == "" || HexId(r.requestId)
    ensures Enabled(INITIAL, Open) && Apply(INITIAL, Open) == Opened(Free)
    ensures Enabled(Opened(Free), Admit(r)) && Apply(Opened(Free), Admit(r)) == Opened(Admitting(r, false))
    ensures Enabled(Opened(Admitting(r, false)), CheckRoom) && Apply(Opened(Admitting(r, false)), CheckRoom) == Opened(Admitting(r, true))
  {
    hide HexId;
    var none: map<JobId, Job> := map[];
    assert Submissions(none) == map[];
  }

  lemma PublishSteps(id: JobId, r: Request)
    requires HexId(id)
    ensures var w := Opened(Admitting(r, true));
      Enabled(w, Publish(id, Landed)) && Apply(w, Publish(id, Landed)) == Serving(id, r, Queued, Enqueuing(id), [], Idle, [])
    ensures var w := Serving(id, r, Queued, Enqueuing(id), [], Idle, []);
      Enabled(w, Enqueue(false)) && Apply(w, Enqueue(false)) == Serving(id, r, Queued, Free, [id], Idle, [id])
    ensures var w := Serving(id, r, Queued, Free, [id], Idle, [id]);
      Enabled(w, Pick) && Apply(w, Pick) == Serving(id, r, Queued, Free, [], Picked(id), [id])
  {
    hide HexId;
    var none: seq<JobId> := [];
    assert none + [id] == [id] && [id][1..] == none;
  }

  lemma ExecutionSteps(id: JobId, r: Request)
    ensures var w := Serving(id, r, Queued, Free, [], Picked(id), [id]);
      Enabled(w, Start(true)) && Apply(w, Start(true)) == Executed(id, r, Running, Executing(id), map[id := false])
    ensures var w := Executed(id, r, Running, Executing(id), map[id := false]);
      Enabled(w, Finish(Succeeded, true)) && Apply(w, Finish(Succeeded, true)) == Executed(id, r, Succeeded, Idle, map[])
  {
    hide HexId;
    var one: map<JobId, bool> := map[id := false];
    assert one - {id} == map[];
    var none: seq<JobId> := [];
    assert none + [id] == [id];
    assert map[id := Job(r, Queued)][id := Job(r, Running)] == map[id := Job(r, Running)];
    assert map[id := Job(r, Running)][id := Job(r, Succeeded)] == map[id := Job(r, Succeeded)];
  }

  lemma ExecutedIs(id: JobId, r: Request)
    requires r.requestId == "" || HexId(r.requestId)
    ensures var w := Executed(id, r, Succeeded, Idle, map[]);
      && w.up.Some? && w.up.value.jobs == map[id := Job(r, Succeeded)] && w.disk.published == map[id := Job(r, Succeeded)]
      && w.history.created == map[id := r] && w.history.enqueued == [id] && w.history.executed == [id]
      && (r.requestId != "" ==> Judge(w.up.value, r) == Replay(id))
  {
    hide HexId;
  }

  function SuccessfulRun(id: JobId, r: Request): seq<Action> {
    [Open, Admit(r), CheckRoom, Publish(id, Landed), Enqueue(false), Pick, Start(true), Finish(Succeeded, true)]
  }

  lemma OneMore(w: World, a: Action, rest: seq<Action>)
    requires Enabled(w, a) && Legal(Apply(w, a), rest)
    ensures Legal(w, [a] + rest) && Run(w, [a] + rest) == Run(Apply(w, a), rest)
  {
    hide Enabled, Apply;
    assert ([a] + rest)[1..] == rest;
  }

  // The verdict on a payload is the same at any two times at which admission is open, across
  // pruning, crashes and restarts, and it names the same job.
  lemma VerdictIsStable(w: World, m: Memory, actions: seq<Action>, m': Memory, id: JobId, r: Request)
    requires Reachable(w) && Legal(w, actions) && w.up == Some(m) && Run(w, actions).up == Some(m')
    requires AcceptedAs(w.history, id, r.requestId) && !m.latched && !m'.latched
    ensures Judge(m, r) == Conflict <==> Judge(m', r) == Conflict
    ensures Judge(m, r) != Conflict ==>
      Judge(m, r) in {Replay(id), Expired(id)} && Judge(m', r) in {Replay(id), Expired(id)}
    ensures Judge(m, r) == Expired(id) ==> Judge(m', r) == Expired(id)
  {
    hide HexId, Enabled, Apply, Judge;
    AnswerToAccepted(w, m, id, r);
    ReachableThen(w, actions);
    ReachableInv(w);
    RunExtends(w, actions);
    AnswerToAccepted(Run(w, actions), m', id, r);
    if r.requestId in m.expired {
      ExpiredIsOnDisk(w, m, r.requestId);
      ExpiryIsFinal(w, actions, r.requestId);
    }
  }

  ghost predicate NoCrash(actions: seq<Action>) {
    forall a <- actions :: !a.Crash?
  }

  lemma {:induction false} LegalConcat(w: World, a: seq<Action>, b: seq<Action>)
    requires Legal(w, a) && Legal(Run(w, a), b)
    ensures Legal(w, a + b) && Run(w, a + b) == Run(Run(w, a), b)
    decreases |a|
  {
    hide Enabled, Apply;
    if a == [] {
      assert a + b == b;
    } else {
      assert (a + b)[1..] == a[1..] + b;
      LegalConcat(Apply(w, a[0]), a[1..], b);
    }
  }

  lemma ReachableThen(w: World, actions: seq<Action>)
    requires Reachable(w) && Legal(w, actions)
    ensures Reachable(Run(w, actions))
  {
    hide Enabled, Apply;
    var before :| Legal(INITIAL, before) && Run(INITIAL, before) == w;
    LegalConcat(INITIAL, before, actions);
  }

  // The disk holds the tombstone, and whatever process runs knows it.
  ghost predicate Remembered(w: World, rid: RequestId) {
    rid in w.disk.tombstones && (w.up.Some? ==> rid in w.up.value.expired)
  }

  lemma ExpiredIsOnDisk(w: World, m: Memory, rid: RequestId)
    requires Inv(w) && w.up == Some(m) && rid in m.expired
    ensures Remembered(w, rid)
  {
    hide HexId, HistoryInv, RecordsInv, JobsInv, GateInv, LifeInv;
  }

  // An expired request ID stays expired through every run, crashes and restarts included.
  lemma {:induction false} ExpiryIsFinal(w: World, actions: seq<Action>, rid: RequestId)
    requires Legal(w, actions) && Remembered(w, rid)
    ensures Remembered(Run(w, actions), rid)
    decreases |actions|
  {
    hide Enabled, Apply, Remembered;
    if actions != [] {
      ExpiryStep(w, actions[0], rid);
      ExpiryIsFinal(Apply(w, actions[0]), actions[1..], rid);
    }
  }

  lemma ExpiryStep(w: World, a: Action, rid: RequestId)
    requires Enabled(w, a) && Remembered(w, rid)
    ensures Remembered(Apply(w, a), rid)
  {
    hide Judge, HexId, Prunable, Journaled, Loadable;
  }

  // ----- Life of a job ------------------------------------------------------------------------------

  // Within one process a terminal state never changes.
  lemma TerminalIsFinal(w: World, m: Memory, actions: seq<Action>, id: JobId)
    requires Inv(w) && Legal(w, actions) && NoCrash(actions) && w.up == Some(m)
    requires id in m.jobs && m.jobs[id].state.Terminal()
    ensures Run(w, actions).up.Some?
    ensures id in Run(w, actions).up.value.jobs ==> Run(w, actions).up.value.jobs[id] == m.jobs[id]
    decreases |actions|
  {
    if actions != [] {
      TerminalStep(w, m, actions[0], id);
      StepKeeps(w, actions[0]);
      var w' := Apply(w, actions[0]);
      if id in w'.up.value.jobs {
        TerminalIsFinal(w', w'.up.value, actions[1..], id);
      } else {
        ForgottenIsFinal(w', w'.up.value, actions[1..], id);
      }
    }
  }

  lemma TerminalStep(w: World, m: Memory, a: Action, id: JobId)
    requires Inv(w) && Enabled(w, a) && !a.Crash? && w.up == Some(m)
    requires id in m.jobs && m.jobs[id].state.Terminal()
    ensures Apply(w, a).up.Some?
    ensures id in Apply(w, a).up.value.jobs ==> Apply(w, a).up.value.jobs[id] == m.jobs[id]
  {
    hide Inv, HexId, UniqueRequests, Judge, Save, Fingerprint, Loadable, MayClean, Journaled, Requests;
    TerminalIsIdle(w, m, id);
  }

  lemma TerminalIsIdle(w: World, m: Memory, id: JobId)
    requires Inv(w) && w.up == Some(m) && id in m.jobs && m.jobs[id].state.Terminal()
    ensures id in w.history.used && m.worker != Executing(id)
  {
    hide HexId, RecordsInv, IndexInv, GateInv;
  }

  // A job pruned from memory does not come back in the same process.
  lemma {:induction false} ForgottenIsFinal(w: World, m: Memory, actions: seq<Action>, id: JobId)
    requires Legal(w, actions) && NoCrash(actions) && w.up == Some(m)
    requires id !in m.jobs && id in w.history.used
    ensures Run(w, actions).up.Some? && id !in Run(w, actions).up.value.jobs
    decreases |actions|
  {
    hide Enabled, Apply;
    if actions != [] {
      var w' := Apply(w, actions[0]);
      ForgottenStep(w, m, actions[0], id);
      ForgottenIsFinal(w', w'.up.value, actions[1..], id);
    }
  }

  lemma ForgottenStep(w: World, m: Memory, a: Action, id: JobId)
    requires Enabled(w, a) && !a.Crash? && w.up == Some(m) && id !in m.jobs && id in w.history.used
    ensures Apply(w, a).up.Some? && id !in Apply(w, a).up.value.jobs && id in Apply(w, a).history.used
  {
    hide Judge, Loadable, HexId;
  }

  // A cancellation accepted on a live job ends in `canceled` in every state of the process in which
  // the worker is not still running that job.
  lemma CancellationIsHonored(w: World, m: Memory, id: JobId, saved: bool, actions: seq<Action>, m': Memory)
    requires Reachable(w) && w.up == Some(m) && Enabled(w, Cancel(id, saved)) && !m.jobs[id].state.Terminal()
    requires Legal(Apply(w, Cancel(id, saved)), actions) && NoCrash(actions)
    requires Run(Apply(w, Cancel(id, saved)), actions).up == Some(m') && id in m'.jobs
    ensures m'.jobs[id].state == Canceled || (m'.worker == Executing(id) && m'.jobs[id].state == Running && id in m'.cancellers && m'.cancellers[id])
    ensures m'.worker != Executing(id) ==> m'.jobs[id].state == Canceled
  {
    hide HexId, Judge, HistoryInv, RecordsInv, JobsInv, IndexInv, GateInv;
    ReachableInv(w);
    var w1 := Apply(w, Cancel(id, saved));
    StepKeeps(w, Cancel(id, saved));
    assert id in w1.history.canceled && w1.up.Some?;
    CanceledStays(w1, actions, id);
    RunKeeps(w1, actions);
  }

  lemma {:induction false} CanceledStays(w: World, actions: seq<Action>, id: JobId)
    requires Legal(w, actions) && NoCrash(actions) && w.up.Some? && id in w.history.canceled
    ensures Run(w, actions).up.Some? && id in Run(w, actions).history.canceled
    decreases |actions|
  {
    hide Judge, HexId;
    if actions != [] {
      var w' := Apply(w, actions[0]);
      assert w'.up.Some? && id in w'.history.canceled;
      CanceledStays(w', actions[1..], id);
    }
  }

  // In every reachable state at most one job is running, exactly the one with a canceller; and the
  // admission that holds the gate can enqueue without waiting.
  lemma WorkerAndQueue(w: World, m: Memory)
    requires Reachable(w) && w.up == Some(m)
    ensures forall a <- m.jobs, b <- m.jobs :: m.jobs[a].state == Running && m.jobs[b].state == Running ==> a == b
    ensures forall id <- m.jobs :: m.jobs[id].state == Running <==> id in m.cancellers
    ensures m.gate.Enqueuing? ==> Enabled(w, Enqueue(false))
    ensures m.worker.Executing? ==> m.worker.id in m.jobs && forall saved :: Enabled(w, Finish(Failed, saved))
  {
    hide HexId, Judge, HistoryInv, RecordsInv, JobsInv, IndexInv;
    ReachableInv(w);
  }

  // ----- Recovery ------------------------------------------------------------------------------------

  // No reachable disk makes the start-up checks refuse: tombstones match the records they name,
  // request IDs are well-formed and unique.
  lemma RecoveryNeverRefuses(w: World)
    requires Reachable(w)
    ensures UniqueRequests(Requests(w.disk.published))
    ensures forall id <- w.disk.published ::
      && (w.disk.published[id].request.requestId == "" || HexId(w.disk.published[id].request.requestId))
      && (w.disk.published[id].request.requestId in w.disk.tombstones ==> MatchesTombstone(w.disk, id))
    ensures forall rid <- w.disk.tombstones :: HexId(rid) && HexId(w.disk.tombstones[rid].jobId)
  {
    hide MemoryInv, HexId;
    ReachableInv(w);
    var created := w.history.created;
    forall id <- w.disk.published | w.disk.published[id].request.requestId in w.disk.tombstones
      ensures MatchesTombstone(w.disk, id)
    {
      SameTombstone(w, w.disk.published[id].request.requestId, id);
    }
    forall a <- w.disk.published, b <- w.disk.published
      | Requests(w.disk.published)[a].requestId == Requests(w.disk.published)[b].requestId && Requests(w.disk.published)[a].requestId != ""
      ensures a == b
    {
      assert created[a].requestId == created[b].requestId;
    }
  }

  // ----- Where an ending comes from ----------------------------------------------------------------------

  // The job is in this state on disk or in memory.
  ghost predicate Shows(w: World, id: JobId, state: JobState) {
    || (id in w.disk.published && w.disk.published[id].state == state)
    || (w.up.Some? && id in w.up.value.jobs && w.up.value.jobs[id].state == state)
  }

  // The worker ends this job, and nobody canceled it.
  ghost predicate EndsUncanceled(w: World, a: Action, id: JobId) {
    a.Finish? && w.up.Some? && w.up.value.worker == Executing(id) && id in w.up.value.cancellers && !w.up.value.cancellers[id]
  }

  // Success needs a worker that reports it; failure a worker that reports it or a station that died
  // with the job unfinished; cancellation a request, or a worker that was signalled or reports it.
  ghost predicate EndedBy(w: World, a: Action, id: JobId, state: JobState) {
    match state
    case Succeeded => EndsUncanceled(w, a, id) && a.result == Succeeded
    case Failed => (EndsUncanceled(w, a, id) && a.result == Failed) || (a == Interrupt(id) && w.up.None? && (Shows(w, id, Queued) || Shows(w, id, Running)))
    case Canceled =>
      || (a.Cancel? && a.id == id)
      || (a.Finish? && w.up.Some? && w.up.value.worker == Executing(id) && (a.result == Canceled || !EndsUncanceled(w, a, id)))
    case _ => false
  }

  // One of the actions ended the job this way.
  ghost predicate EndedDuring(w: World, actions: seq<Action>, id: JobId, state: JobState)
    requires Legal(w, actions)
    decreases |actions|
  {
    actions != [] && (EndedBy(w, actions[0], id, state) || EndedDuring(Apply(w, actions[0]), actions[1..], id, state))
  }

  lemma StepEnds(w: World, a: Action, id: JobId, state: JobState)
    requires Enabled(w, a) && state.Terminal() && Shows(Apply(w, a), id, state) && !Shows(w, id, state)
    ensures EndedBy(w, a, id, state)
  {
    hide Judge, HexId, Loadable, Submissions, Fingerprint;
    if a.Open? && w.up.None? {
      OpenShows(w, id, state);
    }
  }

  lemma OpenShows(w: World, id: JobId, state: JobState)
    requires w.up.None? && Enabled(w, Open)
    ensures Shows(Apply(w, Open), id, state) ==> Shows(w, id, state)
  {
  }

  // Over every run, a job is succeeded, failed or canceled only if it was when the run began or one of
  // the steps ended it so.
  lemma {:induction false} EndingsHaveCauses(w: World, actions: seq<Action>, id: JobId, state: JobState)
    requires Legal(w, actions) && state.Terminal() && Shows(Run(w, actions), id, state)
    ensures Shows(w, id, state) || EndedDuring(w, actions, id, state)
    decreases |actions|
  {
    hide Enabled, Apply, Shows, EndedBy;
    if actions != [] {
      EndingsHaveCauses(Apply(w, actions[0]), actions[1..], id, state);
      if Shows(Apply(w, actions[0]), id, state) && !Shows(w, id, state) {
        StepEnds(w, actions[0], id, state);
      }
    }
  }

  // Recovery leaves no queued or running job, and a fresh queue.
  lemma RecoveryLeavesNothingActive(w: World)
    requires Reachable(w) && Enabled(w, Open) && w.up.None?
    ensures var m := Apply(w, Open).up.value;
      && (forall id <- m.jobs :: m.jobs[id].state.Terminal()) && m.queue == [] && !m.latched && m.cancellers == map[]
      && m.jobs == w.disk.published && m.expired == w.disk.tombstones
      && (forall id <- w.history.created :: w.history.created[id].requestId != "" ==>
            Judge(m, w.history.created[id]) in {Replay(id), Expired(id)})
  {
    hide HexId, UniqueRequests, HistoryInv, RecordsInv;
    var w' := Apply(w, Open);
    var m := w'.up.value;
    assert Legal(w', []) && Legal(w, [Open]) && Run(w, [Open]) == w' by {
      assert [Open][1..] == [];
    }
    ReachableThen(w, [Open]);
    forall id <- w.history.created | w.history.created[id].requestId != ""
      ensures Judge(m, w.history.created[id]) in {Replay(id), Expired(id)}
    {
      AnswerToAccepted(w', m, id, w.history.created[id]);
    }
  }
}
