/**
 The durable job service on values: memory, disk and the steps between lock acquisitions
 (internal/jobs/manager.go, internal/jobs/retention.go).

 A step is one critical section or one disk operation, so a crash may fall between any two disk
 operations.  `History` records what no step may take back: which jobs were ever made durable,
 enqueued or executed.
 */
module JobService {
  import opened Text

  type JobId = string
  type RequestId = string

  const QUEUE_CAPACITY := 128

  datatype Request = Request(requestId: RequestId, artifactId: string, body: string)

  // SHA-256 of the canonical request, taken to be injective.
  datatype Digest = Digest(of: Request)

  function Fingerprint(r: Request): Digest {
    Digest(r)
  }

  datatype JobState = Queued | Running | Succeeded | Failed | Canceled {
    predicate Terminal() {
      Succeeded? || Failed? || Canceled?
    }
  }

  datatype Job = Job(request: Request, state: JobState)

  datatype Tombstone = Tombstone(jobId: JobId, fingerprint: Digest)

  // 32 lowercase hexadecimal characters: a request ID, and a random job ID.
  predicate HexId(s: string) {
    |s| == 32 && forall i | 0 <= i < |s| :: '0' <= s[i] <= '9' || 'a' <= s[i] <= 'f'
  }

  // ----- State --------------------------------------------------------------------------

  datatype Disk = Disk(published: map<JobId, Job>, tombstones: map<RequestId, Tombstone>)

  // The worker goroutine: waiting, holding an ID it took off the queue, or running that job.
  datatype Worker = Idle | Picked(id: JobId) | Executing(id: JobId)

  // The holder of the storage gate and the submission mutex.
  datatype Gate = Free | Admitting(request: Request, roomChecked: bool) | Enqueuing(id: JobId)

  // `cancellers` tells for each running job whether its context is already canceled.
  datatype Memory = Memory(
    jobs: map<JobId, Job>, submissions: map<RequestId, JobId>, expired: map<RequestId, Tombstone>,
    cancellers: map<JobId, bool>, queue: seq<JobId>, latched: bool, stopping: bool, gate: Gate, worker: Worker)

  // `canceled` holds the jobs whose cancellation this process accepted.
  datatype History = History(
    created: map<JobId, Request>, used: set<JobId>, enqueued: seq<JobId>, executed: seq<JobId>, canceled: set<JobId>)

  datatype World = World(disk: Disk, up: Option<Memory>, history: History)

  const INITIAL := World(Disk(map[], map[]), None, History(map[], {}, [], [], {}))

  // ----- The answer to a submission ------------------------------------------------------

  datatype Verdict = BadRequestId | Refused | Conflict | Expired(id: JobId) | Replay(id: JobId) | ShuttingDown | Proceed

  function Judge(m: Memory, r: Request): Verdict {
    var rid := r.requestId;
    if rid != "" && !HexId(rid) then BadRequestId
    else if m.latched then Refused
    else if rid != "" && rid in m.expired then
      if m.expired[rid].fingerprint != Fingerprint(r) then Conflict else Expired(m.expired[rid].jobId)
    else if rid != "" && rid in m.submissions && m.submissions[rid] in m.jobs then
      if m.jobs[m.submissions[rid]].request != r then Conflict else Replay(m.submissions[rid])
    else if m.stopping then ShuttingDown
    else Proceed
  }

  // ----- Steps ----------------------------------------------------------------------------

  // publishMetadata: success, an error before the rename, or an error after it.
  datatype Landing = Landed | Absent | Present

  // `saved` says whether an update whose error is ignored reached the disk.
  datatype Action =
    | Admit(request: Request) | CheckRoom | Decline | Publish(id: JobId, landing: Landing) | Enqueue(dropped: bool)
    | Pick | Start(saved: bool) | Finish(result: JobState, saved: bool) | Cancel(id: JobId, saved: bool) | Stop
    | Entomb(id: JobId, landing: Landing) | Unlink(id: JobId) | Forget(id: JobId)
    | Crash | Drop(id: JobId) | Interrupt(id: JobId) | Open

  // Cleanup runs under the gate, or under an admission that is still making room.
  predicate MayClean(g: Gate) {
    g.Free? || (g.Admitting? && !g.roomChecked)
  }

  predicate Prunable(m: Memory, id: JobId) {
    MayClean(m.gate) && id in m.jobs && m.jobs[id].state.Terminal()
  }

  // The prune journal of the job is in memory, or the job needs none.
  predicate Journaled(m: Memory, id: JobId)
    requires id in m.jobs
  {
    m.jobs[id].request.requestId == "" || m.jobs[id].request.requestId in m.expired
  }

  predicate UniqueRequests(jobs: map<JobId, Request>) {
    forall a <- jobs, b <- jobs :: jobs[a].requestId == jobs[b].requestId && jobs[a].requestId != "" ==> a == b
  }

  function Requests(jobs: map<JobId, Job>): map<JobId, Request> {
    map id <- jobs :: jobs[id].request
  }

  // What `load` accepts without further repair.
  predicate Loadable(d: Disk) {
    && UniqueRequests(Requests(d.published))
    && forall id <- d.published ::
         && d.published[id].state.Terminal()
         && d.published[id].request.requestId !in d.tombstones
         && (d.published[id].request.requestId == "" || HexId(d.published[id].request.requestId))
  }

  predicate MatchesTombstone(d: Disk, id: JobId)
    requires id in d.published && d.published[id].request.requestId in d.tombstones
  {
    d.tombstones[d.published[id].request.requestId] == Tombstone(id, Fingerprint(d.published[id].request))
  }

  predicate Enabled(w: World, a: Action) {
    match w.up
    case None =>
      (match a
       case Crash => true
       case Drop(id) => id in w.disk.published && w.disk.published[id].request.requestId in w.disk.tombstones && MatchesTombstone(w.disk, id)
       case Interrupt(id) =>
         id in w.disk.published && !w.disk.published[id].state.Terminal() && w.disk.published[id].request.requestId !in w.disk.tombstones
       case Open => Loadable(w.disk)
       case _ => false)
    case Some(m) =>
      (match a
       case Admit(r) => m.gate.Free? && Judge(m, r) == Proceed
       case CheckRoom => m.gate.Admitting? && |m.queue| < QUEUE_CAPACITY
       case Decline => m.gate.Admitting?
       case Publish(id, _) => m.gate.Admitting? && m.gate.roomChecked && HexId(id) && id !in w.history.used
       case Enqueue(dropped) => m.gate.Enqueuing? && (if dropped then m.stopping else |m.queue| < QUEUE_CAPACITY)
       case Pick => m.worker.Idle? && m.queue != []
       case Start(_) => m.worker.Picked?
       case Finish(result, _) => m.worker.Executing? && m.worker.id in m.jobs && m.worker.id in m.cancellers && result.Terminal()
       case Cancel(id, _) => id in m.jobs
       case Stop => true
       case Entomb(id, _) => Prunable(m, id) && m.jobs[id].request.requestId != ""
       case Unlink(id) => Prunable(m, id) && Journaled(m, id)
       case Forget(id) => Prunable(m, id) && Journaled(m, id) && id !in w.disk.published
       case Crash => true
       case _ => false)
  }

  function Save(d: Disk, id: JobId, job: Job, saved: bool): Disk {
    if saved then d.(published := d.published[id := job]) else d
  }

  ghost function OpenMemory(d: Disk): Memory
    requires Loadable(d)
  {
    Memory(d.published, Submissions(d.published), d.tombstones, map[], [], false, false, Free, Idle)
  }

  function RequestIds(jobs: map<JobId, Job>): set<RequestId> {
    set id | id in jobs && jobs[id].request.requestId != "" :: jobs[id].request.requestId
  }

  ghost function Holder(jobs: map<JobId, Job>, rid: RequestId): (id: JobId)
    requires rid in RequestIds(jobs)
    ensures id in jobs && jobs[id].request.requestId == rid
  {
    var id :| id in jobs && jobs[id].request.requestId == rid;
    id
  }

  // The index of the jobs by request ID.
  ghost function Submissions(jobs: map<JobId, Job>): (index: map<RequestId, JobId>)
    requires UniqueRequests(Requests(jobs))
    ensures forall id <- jobs :: jobs[id].request.requestId != "" ==> jobs[id].request.requestId in index && index[jobs[id].request.requestId] == id
    ensures forall rid <- index :: rid != "" && index[rid] in jobs && jobs[index[rid]].request.requestId == rid
  {
    assert forall a <- jobs :: Requests(jobs)[a] == jobs[a].request;
    map rid <- RequestIds(jobs) :: Holder(jobs, rid)
  }

  ghost function ApplyUp(w: World, m: Memory, a: Action): World
    requires w.up == Some(m) && Enabled(w, a)
  {
    var h, d := w.history, w.disk;
    match a
    case Admit(r) => w.(up := Some(m.(gate := Admitting(r, false))))
    case CheckRoom => w.(up := Some(m.(gate := m.gate.(roomChecked := true))))
    case Decline => w.(up := Some(m.(gate := Free)))
    case Publish(id, landing) =>
      var r := m.gate.request;
      var job := Job(r, Queued);
      var d' := Save(d, id, job, landing != Absent);
      var h' := h.(used := h.used + {id}, created := if landing == Absent then h.created else h.created[id := r]);
      World(d', Some(
              if landing == Landed then
                m.(jobs := m.jobs[id := job], gate := Enqueuing(id),
                submissions := if r.requestId == "" then m.submissions else m.submissions[r.requestId := id])
              else m.(latched := true, gate := Free)), h')
    case Enqueue(dropped) =>
      if dropped then w.(up := Some(m.(gate := Free)))
      else World(d, Some(m.(gate := Free, queue := m.queue + [m.gate.id])), h.(enqueued := h.enqueued + [m.gate.id]))
    case Pick => w.(up := Some(m.(worker := Picked(m.queue[0]), queue := m.queue[1..])))
    case Start(saved) =>
      var id := m.worker.id;
      if id !in m.jobs || m.jobs[id].state != Queued then w.(up := Some(m.(worker := Idle)))
      else
        var job := m.jobs[id].(state := Running);
        World(Save(d, id, job, saved),
              Some(m.(worker := Executing(id), jobs := m.jobs[id := job], cancellers := m.cancellers[id := m.stopping])),
              h.(executed := h.executed + [id]))
    case Finish(result, saved) =>
      var id := m.worker.id;
      var job := m.jobs[id].(state := if m.cancellers[id] then Canceled else result);
      World(Save(d, id, job, saved),
            Some(m.(worker := Idle, jobs := m.jobs[id := job], cancellers := m.cancellers - {id})), h)
    case Cancel(id, saved) =>
      if m.jobs[id].state.Terminal() then w
      else
        var h' := h.(canceled := h.canceled + {id});
        if id in m.cancellers then World(d, Some(m.(cancellers := m.cancellers[id := true])), h')
        else
          var job := m.jobs[id].(state := Canceled);
          World(Save(d, id, job, saved), Some(m.(jobs := m.jobs[id := job])), h')
    case Stop => w.(up := Some(m.(stopping := true, cancellers := map id <- m.cancellers :: true)))
    case Entomb(id, landing) =>
      var r := m.jobs[id].request;
      var t := Tombstone(id, Fingerprint(r));
      var d' := if landing == Absent then d else d.(tombstones := d.tombstones[r.requestId := t]);
      World(d', Some(
              if landing == Landed then m.(expired := m.expired[r.requestId := t], submissions := m.submissions - {r.requestId})
              else m), h)
    case Unlink(id) => w.(disk := d.(published := d.published - {id}))
    case Forget(id) => w.(up := Some(m.(jobs := m.jobs - {id})))
    case Crash => World(d, None, h.(canceled := {}))
  }

  ghost function Apply(w: World, a: Action): World
    requires Enabled(w, a)
  {
    match w.up
    case Some(m) => ApplyUp(w, m, a)
    case None =>
      match a
      case Crash => w
      case Drop(id) => w.(disk := w.disk.(published := w.disk.published - {id}))
      case Interrupt(id) => w.(disk := Save(w.disk, id, w.disk.published[id].(state := Failed), true))
      case Open => w.(up := Some(OpenMemory(w.disk)))
  }

  ghost predicate Legal(w: World, actions: seq<Action>)
    decreases |actions|
  {
    actions == [] || (Enabled(w, actions[0]) && Legal(Apply(w, actions[0]), actions[1..]))
  }

  ghost function Run(w: World, actions: seq<Action>): World
    requires Legal(w, actions)
    decreases |actions|
  {
    if actions == [] then w else Run(Apply(w, actions[0]), actions[1..])
  }

  // ----- Invariants -------------------------------------------------------------------------

  ghost predicate NoRepeat<T(!new)>(s: seq<T>) {
    forall i, j | 0 <= i < j < |s| :: s[i] != s[j]
  }

  ghost predicate HistoryInv(h: History) {
    && h.created.Keys <= h.used && (forall id <- h.used :: HexId(id)) && UniqueRequests(h.created)
    && (forall id <- h.created :: h.created[id].requestId == "" || HexId(h.created[id].requestId))
    && (forall id <- h.enqueued :: id in h.created) && NoRepeat(h.enqueued)
    && (forall id <- h.executed :: id in h.created) && NoRepeat(h.executed)
    && h.canceled <= h.created.Keys
  }

  // The disk keeps every accepted request ID: its job record or its tombstone is there.
  ghost predicate RecordsInv(published: map<JobId, Job>, tombstones: map<RequestId, Tombstone>, created: map<JobId, Request>) {
    && (forall id <- published :: id in created && published[id].request == created[id])
    && (forall rid <- tombstones :: rid != "" && tombstones[rid].jobId in created
          && created[tombstones[rid].jobId].requestId == rid
          && tombstones[rid].fingerprint == Fingerprint(created[tombstones[rid].jobId]))
    && (forall id <- created :: created[id].requestId == "" || id in published || created[id].requestId in tombstones)
  }

  // Memory agrees with the disk and with history.
  ghost predicate JobsInv(jobs: map<JobId, Job>, published: map<JobId, Job>, created: map<JobId, Request>, executed: seq<JobId>) {
    && (forall id <- jobs :: id in created && jobs[id].request == created[id])
    && (forall id <- jobs :: !jobs[id].state.Terminal() ==> id in published)
    && (forall id <- jobs :: jobs[id].state == Queued ==> id !in executed)
  }

  // Unless admission is latched, memory knows every accepted request ID.
  ghost predicate IndexInv(jobs: map<JobId, Job>, submissions: map<RequestId, JobId>, expired: map<RequestId, Tombstone>,
    latched: bool, tombstones: map<RequestId, Tombstone>, created: map<JobId, Request>)
  {
    && (forall rid <- submissions :: rid != "" && submissions[rid] in jobs && jobs[submissions[rid]].request.requestId == rid)
    && (forall rid <- expired :: rid in tombstones && tombstones[rid] == expired[rid] && rid !in submissions)
    && (!latched ==> forall id <- created ::
          created[id].requestId == "" || created[id].requestId in submissions || created[id].requestId in expired)
  }

  // The gate's holder relies on room in the queue and on the request ID being new.
  ghost predicate GateInv(queue: seq<JobId>, gate: Gate, latched: bool, created: map<JobId, Request>, enqueued: seq<JobId>) {
    && |queue| <= QUEUE_CAPACITY
    && match gate
       case Free => true
       case Admitting(r, checked) =>
         && !latched && (checked ==> |queue| < QUEUE_CAPACITY)
         && (r.requestId == "" || HexId(r.requestId))
         && forall id <- created :: created[id].requestId == "" || created[id].requestId != r.requestId
       case Enqueuing(id) => |queue| < QUEUE_CAPACITY && id in created && id !in enqueued
  }

  // One job runs, its canceller exists, and an accepted cancellation is on record or has been carried out.
  ghost predicate LifeInv(jobs: map<JobId, Job>, cancellers: map<JobId, bool>, worker: Worker, stopping: bool, canceled: set<JobId>) {
    && cancellers.Keys == (if worker.Executing? then {worker.id} else {})
    && (worker.Executing? ==> worker.id in jobs)
    && (forall id <- jobs :: jobs[id].state == Running <==> worker == Executing(id))
    && (stopping ==> forall id <- cancellers :: cancellers[id])
    && (forall id <- canceled :: id in jobs ==> jobs[id].state == Canceled || (id in cancellers && cancellers[id]))
  }

  ghost predicate MemoryInv(m: Memory, d: Disk, h: History) {
    && JobsInv(m.jobs, d.published, h.created, h.executed)
    && IndexInv(m.jobs, m.submissions, m.expired, m.latched, d.tombstones, h.created)
    && GateInv(m.queue, m.gate, m.latched, h.created, h.enqueued)
    && LifeInv(m.jobs, m.cancellers, m.worker, m.stopping, h.canceled)
  }

  ghost predicate Inv(w: World) {
    && HistoryInv(w.history)
    && RecordsInv(w.disk.published, w.disk.tombstones, w.history.created)
    && match w.up
       case None => w.history.canceled == {}
       case Some(m) => MemoryInv(m, w.disk, w.history)
  }

  // ----- Effects on the parts of the state ---------------------------------------------------

  lemma InitialInv()
    ensures Inv(INITIAL)
  {
  }

  lemma RecordSaved(published: map<JobId, Job>, tombstones: map<RequestId, Tombstone>, created: map<JobId, Request>, id: JobId, job: Job)
    requires RecordsInv(published, tombstones, created) && id in created && job.request == created[id]
    ensures RecordsInv(published[id := job], tombstones, created)
  {
  }

  lemma RecordCreated(published: map<JobId, Job>, tombstones: map<RequestId, Tombstone>, created: map<JobId, Request>, id: JobId, r: Request)
    requires RecordsInv(published, tombstones, created) && id !in created
    ensures RecordsInv(published[id := Job(r, Queued)], tombstones, created[id := r])
  {
  }

  lemma RecordRemoved(published: map<JobId, Job>, tombstones: map<RequestId, Tombstone>, created: map<JobId, Request>, id: JobId)
    requires RecordsInv(published, tombstones, created)
    requires id in created ==> created[id].requestId == "" || created[id].requestId in tombstones
    ensures RecordsInv(published - {id}, tombstones, created)
  {
  }

  lemma RecordEntombed(published: map<JobId, Job>, tombstones: map<RequestId, Tombstone>, created: map<JobId, Request>, id: JobId)
    requires RecordsInv(published, tombstones, created) && id in created && created[id].requestId != ""
    ensures RecordsInv(published, tombstones[created[id].requestId := Tombstone(id, Fingerprint(created[id]))], created)
  {
  }

  lemma HistoryCreated(h: History, id: JobId, r: Request)
    requires HistoryInv(h) && id !in h.used && HexId(id) && (r.requestId == "" || HexId(r.requestId))
    requires forall a <- h.created :: h.created[a].requestId == "" || h.created[a].requestId != r.requestId
    ensures HistoryInv(h.(used := h.used + {id})) && HistoryInv(h.(used := h.used + {id}, created := h.created[id := r]))
  {
    hide HexId;
  }

  lemma HistoryAppended(h: History, id: JobId)
    requires HistoryInv(h) && id in h.created
    ensures id !in h.enqueued ==> HistoryInv(h.(enqueued := h.enqueued + [id]))
    ensures id !in h.executed ==> HistoryInv(h.(executed := h.executed + [id]))
    ensures HistoryInv(h.(canceled := h.canceled + {id}))
  {
    hide HexId, UniqueRequests;
  }

  lemma JobChanged(jobs: map<JobId, Job>, published: map<JobId, Job>, created: map<JobId, Request>, executed: seq<JobId>,
    id: JobId, job: Job, saved: bool, started: bool)
    requires JobsInv(jobs, published, created, executed) && id in jobs && job.request == jobs[id].request
    requires job.state != Queued && (!job.state.Terminal() ==> !jobs[id].state.Terminal())
    ensures JobsInv(jobs[id := job], if saved then published[id := job] else published, created,
              if started then executed + [id] else executed)
  {
  }

  lemma JobCreated(jobs: map<JobId, Job>, published: map<JobId, Job>, created: map<JobId, Request>, executed: seq<JobId>, id: JobId, r: Request)
    requires JobsInv(jobs, published, created, executed) && id !in created && (forall e <- executed :: e in created)
    ensures JobsInv(jobs[id := Job(r, Queued)], published[id := Job(r, Queued)], created[id := r], executed)
    ensures JobsInv(jobs, published[id := Job(r, Queued)], created[id := r], executed)
  {
  }

  lemma JobRemoved(jobs: map<JobId, Job>, published: map<JobId, Job>, created: map<JobId, Request>, executed: seq<JobId>, id: JobId)
    requires JobsInv(jobs, published, created, executed) && id in jobs && jobs[id].state.Terminal()
    ensures JobsInv(jobs, published - {id}, created, executed) && JobsInv(jobs - {id}, published, created, executed)
  {
  }

  lemma IndexUpdated(jobs: map<JobId, Job>, submissions: map<RequestId, JobId>, expired: map<RequestId, Tombstone>, latched: bool,
    tombstones: map<RequestId, Tombstone>, created: map<JobId, Request>, id: JobId, job: Job)
    requires IndexInv(jobs, submissions, expired, latched, tombstones, created)
    requires id in jobs && job.request == jobs[id].request
    ensures IndexInv(jobs[id := job], submissions, expired, latched, tombstones, created)
  {
  }

  lemma IndexCreated(jobs: map<JobId, Job>, submissions: map<RequestId, JobId>, expired: map<RequestId, Tombstone>, latched: bool,
    tombstones: map<RequestId, Tombstone>, created: map<JobId, Request>, id: JobId, r: Request)
    requires IndexInv(jobs, submissions, expired, latched, tombstones, created) && id !in jobs && r.requestId !in expired
    ensures IndexInv(jobs[id := Job(r, Queued)], if r.requestId == "" then submissions else submissions[r.requestId := id],
              expired, latched, tombstones, created[id := r])
    ensures IndexInv(jobs, submissions, expired, true, tombstones, created[id := r])
    ensures IndexInv(jobs, submissions, expired, true, tombstones, created)
  {
  }

  lemma IndexEntombed(jobs: map<JobId, Job>, submissions: map<RequestId, JobId>, expired: map<RequestId, Tombstone>, latched: bool,
    tombstones: map<RequestId, Tombstone>, created: map<JobId, Request>, rid: RequestId, t: Tombstone)
    requires IndexInv(jobs, submissions, expired, latched, tombstones, created)
    ensures IndexInv(jobs, submissions - {rid}, expired[rid := t], latched, tombstones[rid := t], created)
    ensures (rid in expired ==> expired[rid] == t) ==> IndexInv(jobs, submissions, expired, latched, tombstones[rid := t], created)
  {
  }

  lemma IndexForgotten(jobs: map<JobId, Job>, submissions: map<RequestId, JobId>, expired: map<RequestId, Tombstone>, latched: bool,
    tombstones: map<RequestId, Tombstone>, created: map<JobId, Request>, id: JobId)
    requires IndexInv(jobs, submissions, expired, latched, tombstones, created)
    requires id in jobs && (jobs[id].request.requestId == "" || jobs[id].request.requestId in expired)
    ensures IndexInv(jobs - {id}, submissions, expired, latched, tombstones, created)
  {
  }

  // ----- Each step keeps the invariant --------------------------------------------------------

  lemma GateStepKeeps(w: World, m: Memory, a: Action)
    requires w.up == Some(m) && Inv(w) && Enabled(w, a) && (a.Admit? || a.CheckRoom? || a.Decline?)
    ensures Inv(ApplyUp(w, m, a))
  {
    hide HistoryInv, RecordsInv, JobsInv, LifeInv, HexId;
  }

  // What the invariant says of a job in memory, and of an ID never used.
  lemma KnownJob(w: World, m: Memory, id: JobId)
    requires w.up == Some(m) && Inv(w)
    ensures id in m.jobs ==> id in w.history.created && w.history.created[id] == m.jobs[id].request
    ensures id in m.jobs && m.jobs[id].state == Queued ==> id !in w.history.executed
    ensures id !in w.history.used ==>
      && id !in w.history.created && id !in m.jobs && id !in w.history.canceled
      && id !in w.history.enqueued && id !in w.history.executed
    ensures forall e <- w.history.executed :: e in w.history.created
  {
    hide HexId, UniqueRequests, RecordsInv, IndexInv, GateInv, LifeInv;
  }

  lemma NewRequest(w: World, m: Memory)
    requires w.up == Some(m) && Inv(w) && m.gate.Admitting?
    ensures !m.latched && (m.gate.request.requestId == "" || HexId(m.gate.request.requestId))
    ensures m.gate.request.requestId !in m.expired
    ensures forall a <- w.history.created :: w.history.created[a].requestId == "" || w.history.created[a].requestId != m.gate.request.requestId
  {
    hide HexId, HistoryInv, JobsInv, LifeInv, RecordsInv;
    TombstonesHaveJobs(w);
  }

  lemma TombstonesHaveJobs(w: World)
    requires Inv(w)
    ensures forall rid <- w.disk.tombstones ::
      rid != "" && w.disk.tombstones[rid].jobId in w.history.created && w.history.created[w.disk.tombstones[rid].jobId].requestId == rid
  {
    hide HexId, HistoryInv, MemoryInv;
  }

  lemma LifeCreated(jobs: map<JobId, Job>, cancellers: map<JobId, bool>, worker: Worker, stopping: bool, canceled: set<JobId>,
    id: JobId, r: Request)
    requires LifeInv(jobs, cancellers, worker, stopping, canceled) && id !in jobs && id !in canceled
    ensures LifeInv(jobs[id := Job(r, Queued)], cancellers, worker, stopping, canceled)
  {
  }

  lemma LifeStarted(jobs: map<JobId, Job>, cancellers: map<JobId, bool>, id: JobId, stopping: bool, canceled: set<JobId>)
    requires LifeInv(jobs, cancellers, Picked(id), stopping, canceled) && id in jobs && jobs[id].state == Queued
    ensures LifeInv(jobs[id := jobs[id].(state := Running)], cancellers[id := stopping], Executing(id), stopping, canceled)
  {
  }

  lemma LifeCanceled(jobs: map<JobId, Job>, cancellers: map<JobId, bool>, worker: Worker, stopping: bool, canceled: set<JobId>, id: JobId)
    requires LifeInv(jobs, cancellers, worker, stopping, canceled) && id in jobs && !jobs[id].state.Terminal()
    ensures id in cancellers ==> LifeInv(jobs, cancellers[id := true], worker, stopping, canceled + {id})
    ensures id !in cancellers ==> LifeInv(jobs[id := jobs[id].(state := Canceled)], cancellers, worker, stopping, canceled + {id})
  {
  }

  lemma PublishKeeps(w: World, m: Memory, id: JobId, landing: Landing)
    requires w.up == Some(m) && Inv(w) && Enabled(w, Publish(id, landing))
    ensures Inv(ApplyUp(w, m, Publish(id, landing)))
  {
    hide HistoryInv, RecordsInv, JobsInv, IndexInv, LifeInv, HexId, Judge;
    var r, h, d := m.gate.request, w.history, w.disk;
    KnownJob(w, m, id);
    NewRequest(w, m);
    HistoryCreated(h, id, r);
    RecordCreated(d.published, d.tombstones, h.created, id, r);
    JobCreated(m.jobs, d.published, h.created, h.executed, id, r);
    IndexCreated(m.jobs, m.submissions, m.expired, m.latched, d.tombstones, h.created, id, r);
    LifeCreated(m.jobs, m.cancellers, m.worker, m.stopping, h.canceled, id, r);
  }

  lemma EnqueueKeeps(w: World, m: Memory, dropped: bool)
    requires w.up == Some(m) && Inv(w) && Enabled(w, Enqueue(dropped))
    ensures Inv(ApplyUp(w, m, Enqueue(dropped)))
  {
    hide HistoryInv, RecordsInv, JobsInv, IndexInv, LifeInv, HexId;
    HistoryAppended(w.history, m.gate.id);
  }

  lemma StartKeeps(w: World, m: Memory, saved: bool)
    requires w.up == Some(m) && Inv(w) && Enabled(w, Start(saved))
    ensures Inv(ApplyUp(w, m, Start(saved)))
  {
    hide HistoryInv, RecordsInv, JobsInv, IndexInv, HexId, Judge;
    var id, h, d := m.worker.id, w.history, w.disk;
    if id in m.jobs && m.jobs[id].state == Queued {
      hide LifeInv, GateInv;
      var job := m.jobs[id].(state := Running);
      KnownJob(w, m, id);
      HistoryAppended(h, id);
      RecordSaved(d.published, d.tombstones, h.created, id, job);
      JobChanged(m.jobs, d.published, h.created, h.executed, id, job, saved, true);
      IndexUpdated(m.jobs, m.submissions, m.expired, m.latched, d.tombstones, h.created, id, job);
      LifeStarted(m.jobs, m.cancellers, id, m.stopping, h.canceled);
    }
  }

  lemma FinishKeeps(w: World, m: Memory, result: JobState, saved: bool)
    requires w.up == Some(m) && Inv(w) && Enabled(w, Finish(result, saved))
    ensures Inv(ApplyUp(w, m, Finish(result, saved)))
  {
    var id, h, d := m.worker.id, w.history, w.disk;
    var job := m.jobs[id].(state := if m.cancellers[id] then Canceled else result);
    hide HistoryInv, RecordsInv, JobsInv, IndexInv, GateInv, LifeInv, HexId, Save;
    KnownJob(w, m, id);
    LifeFinished(m.jobs, m.cancellers, m.worker, m.stopping, h.canceled, job);
    RecordSaved(d.published, d.tombstones, h.created, id, job);
    JobChanged(m.jobs, d.published, h.created, h.executed, id, job, saved, false);
    IndexUpdated(m.jobs, m.submissions, m.expired, m.latched, d.tombstones, h.created, id, job);
    assert Save(d, id, job, saved) == if saved then d.(published := d.published[id := job]) else d by { SaveIs(d, id, job, saved); }
  }

  lemma SaveIs(d: Disk, id: JobId, job: Job, saved: bool)
    ensures Save(d, id, job, saved) == if saved then d.(published := d.published[id := job]) else d
  {
  }

  lemma LifeFinished(jobs: map<JobId, Job>, cancellers: map<JobId, bool>, worker: Worker, stopping: bool, canceled: set<JobId>, job: Job)
    requires LifeInv(jobs, cancellers, worker, stopping, canceled) && worker.Executing? && worker.id in cancellers
    requires job.state.Terminal() && (cancellers[worker.id] ==> job.state == Canceled)
    ensures LifeInv(jobs[worker.id := job], cancellers - {worker.id}, Idle, stopping, canceled)
  {
  }

  lemma CancelKeeps(w: World, m: Memory, id: JobId, saved: bool)
    requires w.up == Some(m) && Inv(w) && Enabled(w, Cancel(id, saved))
    ensures Inv(ApplyUp(w, m, Cancel(id, saved)))
  {
    hide HistoryInv, RecordsInv, JobsInv, IndexInv, GateInv, LifeInv, HexId, Judge;
    var h, d := w.history, w.disk;
    var job := m.jobs[id].(state := Canceled);
    KnownJob(w, m, id);
    HistoryAppended(h, id);
    RecordSaved(d.published, d.tombstones, h.created, id, job);
    JobChanged(m.jobs, d.published, h.created, h.executed, id, job, saved, false);
    IndexUpdated(m.jobs, m.submissions, m.expired, m.latched, d.tombstones, h.created, id, job);
    if !m.jobs[id].state.Terminal() {
      LifeCanceled(m.jobs, m.cancellers, m.worker, m.stopping, h.canceled, id);
    }
  }

  lemma WorkerStepKeeps(w: World, m: Memory, a: Action)
    requires w.up == Some(m) && Inv(w) && Enabled(w, a) && (a.Pick? || a.Stop?)
    ensures Inv(ApplyUp(w, m, a))
  {
    hide HistoryInv, RecordsInv, JobsInv, IndexInv, HexId;
  }

  lemma EntombKeeps(w: World, m: Memory, id: JobId, landing: Landing)
    requires w.up == Some(m) && Inv(w) && Enabled(w, Entomb(id, landing))
    ensures Inv(ApplyUp(w, m, Entomb(id, landing)))
  {
    hide HistoryInv, RecordsInv, JobsInv, IndexInv, GateInv, LifeInv, HexId;
    var h, d := w.history, w.disk;
    var r := m.jobs[id].request;
    var t := Tombstone(id, Fingerprint(r));
    KnownJob(w, m, id);
    ExpiredHasTombstone(m.jobs, m.submissions, m.expired, m.latched, d.tombstones, h.created);
    if r.requestId in m.expired {
      SameTombstone(w, r.requestId, id);
    }
    RecordEntombed(d.published, d.tombstones, h.created, id);
    IndexEntombed(m.jobs, m.submissions, m.expired, m.latched, d.tombstones, h.created, r.requestId, t);
  }

  // A request ID has one tombstone content for all time.
  lemma SameTombstone(w: World, rid: RequestId, id: JobId)
    requires Inv(w) && rid in w.disk.tombstones && id in w.history.created && w.history.created[id].requestId == rid
    ensures w.disk.tombstones[rid] == Tombstone(id, Fingerprint(w.history.created[id]))
  {
    hide HexId, MemoryInv;
  }

  lemma PruneStepKeeps(w: World, m: Memory, a: Action)
    requires w.up == Some(m) && Inv(w) && Enabled(w, a) && (a.Unlink? || a.Forget?)
    ensures Inv(ApplyUp(w, m, a))
  {
    hide HistoryInv, RecordsInv, JobsInv, IndexInv, GateInv, LifeInv, HexId;
    var id, h, d := a.id, w.history, w.disk;
    KnownJob(w, m, id);
    ExpiredHasTombstone(m.jobs, m.submissions, m.expired, m.latched, d.tombstones, h.created);
    RecordRemoved(d.published, d.tombstones, h.created, id);
    JobRemoved(m.jobs, d.published, h.created, h.executed, id);
    if a.Forget? {
      IndexForgotten(m.jobs, m.submissions, m.expired, m.latched, d.tombstones, h.created, id);
      LifeForgotten(m.jobs, m.cancellers, m.worker, m.stopping, h.canceled, id);
    }
  }

  lemma ExpiredHasTombstone(jobs: map<JobId, Job>, submissions: map<RequestId, JobId>, expired: map<RequestId, Tombstone>, latched: bool,
    tombstones: map<RequestId, Tombstone>, created: map<JobId, Request>)
    requires IndexInv(jobs, submissions, expired, latched, tombstones, created)
    ensures forall rid <- expired :: rid in tombstones && expired[rid] == tombstones[rid]
  {
  }

  lemma LifeForgotten(jobs: map<JobId, Job>, cancellers: map<JobId, bool>, worker: Worker, stopping: bool, canceled: set<JobId>, id: JobId)
    requires LifeInv(jobs, cancellers, worker, stopping, canceled) && id in jobs && jobs[id].state.Terminal()
    ensures LifeInv(jobs - {id}, cancellers, worker, stopping, canceled)
  {
  }

  lemma RecoveryStepKeeps(w: World, a: Action)
    requires w.up.None? && Inv(w) && Enabled(w, a)
    ensures Inv(Apply(w, a))
  {
    hide HistoryInv, HexId;
    var h, d := w.history, w.disk;
    match a {
      case Drop(id) => RecordRemoved(d.published, d.tombstones, h.created, id);
      case Interrupt(id) => RecordSaved(d.published, d.tombstones, h.created, id, d.published[id].(state := Failed));
      case Open => OpenKeeps(w);
      case _ =>
    }
  }

  lemma OpenKeeps(w: World)
    requires w.up.None? && Inv(w) && Loadable(w.disk)
    ensures MemoryInv(OpenMemory(w.disk), w.disk, w.history)
  {
    hide HistoryInv, HexId, UniqueRequests;
    var m, h := OpenMemory(w.disk), w.history;
    assert JobsInv(m.jobs, w.disk.published, h.created, h.executed);
    forall id <- h.created
      ensures h.created[id].requestId == "" || h.created[id].requestId in m.submissions || h.created[id].requestId in m.expired
    {
      if id in w.disk.published && h.created[id].requestId != "" {
        assert m.jobs[id].request.requestId in m.submissions;
      }
    }
  }

  lemma StepKeeps(w: World, a: Action)
    requires Inv(w) && Enabled(w, a)
    ensures Inv(Apply(w, a))
  {
    hide HistoryInv, RecordsInv, MemoryInv, ApplyUp, Judge, Loadable, HexId;
    match w.up {
      case None => RecoveryStepKeeps(w, a);
      case Some(m) =>
        match a {
          case Publish(id, landing) => PublishKeeps(w, m, id, landing);
          case Enqueue(dropped) => EnqueueKeeps(w, m, dropped);
          case Start(saved) => StartKeeps(w, m, saved);
          case Finish(result, saved) => FinishKeeps(w, m, result, saved);
          case Cancel(id, saved) => CancelKeeps(w, m, id, saved);
          case Entomb(id, landing) => EntombKeeps(w, m, id, landing);
          case Crash => CrashKeeps(w, m);
          case _ =>
            if a.Unlink? || a.Forget? {
              PruneStepKeeps(w, m, a);
            } else if a.Pick? || a.Stop? {
              WorkerStepKeeps(w, m, a);
            } else if a.Admit? || a.CheckRoom? || a.Decline? {
              GateStepKeeps(w, m, a);
            }
        }
    }
  }

  lemma CrashKeeps(w: World, m: Memory)
    requires w.up == Some(m) && Inv(w)
    ensures Inv(ApplyUp(w, m, Crash))
  {
    hide HexId, UniqueRequests, MemoryInv, RecordsInv;
  }

  lemma {:induction false} RunKeeps(w: World, actions: seq<Action>)
    requires Inv(w) && Legal(w, actions)
    ensures Inv(Run(w, actions))
    decreases |actions|
  {
    hide Inv, Enabled, Apply;
    if actions != [] {
      StepKeeps(w, actions[0]);
      RunKeeps(Apply(w, actions[0]), actions[1..]);
    }
  }
}
