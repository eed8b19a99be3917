/**
 Cleanup on values: which jobs and artifacts retention selects (internal/jobs/retention.go).

 IDs are fixed-length hexadecimal texts, ordered like the numbers they spell.
 */
module Retention {
  import opened Text
  import opened Ordering
  import opened StorageBudget

  type Id = int

  const COMPLETED_LIMIT := 30
  const RECORD_MARGIN := 4096

  // `files` is the size of the job's known files, `tombstone` the size of its prune journal, if it has a request ID.
  datatype Job = Job(created: nat, terminal: bool, artifact: Id, files: nat, tombstone: Option<nat>)

  // `safe` says that the directory holds nothing but what the manifest lists.
  datatype Artifact = Artifact(imported: nat, size: nat, safe: bool)

  // `other` are bytes cleanup never touches, `held` the reservations not yet released.
  datatype Store = Store(limit: int, other: nat, maintenance: nat, jobs: map<Id, Job>, artifacts: map<Id, Artifact>,
                         pins: set<Id>, held: map<Id, nat>, tombstones: map<Id, nat>)

  // ----- Bytes -----------------------------------------------------------------------------------

  function FileBytes(jobs: map<Id, Job>): map<Id, int> {
    map id <- jobs :: jobs[id].files
  }

  function ArtifactBytes(artifacts: map<Id, Artifact>): map<Id, int> {
    map id <- artifacts :: artifacts[id].size
  }

  function Counts(m: map<Id, nat>): map<Id, int> {
    map id <- m :: m[id]
  }

  // What is left of each reservation.
  function Outstanding(s: Store): map<Id, int> {
    map id <- s.held :: if id in s.jobs then Max(s.held[id] - s.jobs[id].files, 0) else s.held[id]
  }

  function Max(a: int, b: int): int {
    if a < b then b else a
  }

  ghost function Used(s: Store): int {
    s.other + Total(FileBytes(s.jobs)) + Total(ArtifactBytes(s.artifacts)) + Total(Counts(s.tombstones))
  }

  ghost function Reserved(s: Store): int {
    s.maintenance + Total(Outstanding(s))
  }

  // ----- Jobs --------------------------------------------------------------------------------------

  predicate Newer(jobs: map<Id, Job>, a: Id, b: Id) {
    a in jobs && b in jobs &&
    (jobs[a].created > jobs[b].created || (jobs[a].created == jobs[b].created && a > b))
  }

  function Completed(jobs: map<Id, Job>): set<Id> {
    set id | id in jobs && jobs[id].terminal
  }

  // The sort's comparison, total on the jobs and extended beyond them by ID.
  predicate JobBefore(jobs: map<Id, Job>, a: Id, b: Id) {
    if a in jobs && b in jobs then Newer(jobs, a, b) else if a in jobs || b in jobs then a in jobs else a > b
  }

  function JobOrder(jobs: map<Id, Job>): (Id, Id) -> bool {
    (a, b) => JobBefore(jobs, a, b)
  }

  lemma JobOrderIsStrict(jobs: map<Id, Job>)
    ensures StrictOrder(JobOrder(jobs))
  {
    assert forall a, b :: JobOrder(jobs)(a, b) == JobBefore(jobs, a, b);
  }

  ghost function NewerCompleted(jobs: map<Id, Job>, id: Id): set<Id> {
    set x | x in Completed(jobs) && Newer(jobs, x, id)
  }

  // The 30 newest completed jobs, said without sorting: fewer than 30 completed jobs are newer.
  ghost predicate Keeps(jobs: map<Id, Job>, id: Id) {
    id in jobs && (jobs[id].terminal ==> |NewerCompleted(jobs, id)| < COMPLETED_LIMIT)
  }

  ghost predicate IsPruneList(jobs: map<Id, Job>, prune: seq<Id>) {
    && Sorted(prune, JobOrder(jobs))
    && forall id :: id in prune <==> id in jobs && !Keeps(jobs, id)
  }

  // ----- Artifacts -----------------------------------------------------------------------------------

  // Pinned by an admission, or needed by a job that has not finished.
  predicate Active(s: Store, artifact: Id) {
    artifact in s.pins || exists id <- s.jobs :: !s.jobs[id].terminal && s.jobs[id].artifact == artifact
  }

  // Needed by a completed job that is kept.
  ghost predicate Referenced(s: Store, artifact: Id) {
    exists id <- s.jobs :: s.jobs[id].terminal && s.jobs[id].artifact == artifact && Keeps(s.jobs, id)
  }

  // The newest creation time of a job on the artifact.
  ghost predicate IsLastUsed(s: Store, artifact: Id, time: nat) {
    && (forall id <- s.jobs :: s.jobs[id].artifact == artifact ==> s.jobs[id].created <= time)
    && (time == 0 || exists id <- s.jobs :: s.jobs[id].artifact == artifact && s.jobs[id].created == time)
  }

  // What the artifact sort looks at.
  datatype Rank = Rank(referenced: bool, time: nat)

  ghost predicate IsRank(s: Store, artifact: Id, rank: Rank)
    requires artifact in s.artifacts
  {
    && (rank.referenced <==> Referenced(s, artifact))
    && if rank.referenced then IsLastUsed(s, artifact, rank.time) else rank.time == s.artifacts[artifact].imported
  }

  ghost predicate IsRanking(s: Store, ranks: map<Id, Rank>) {
    ranks.Keys == s.artifacts.Keys && forall a <- ranks :: IsRank(s, a, ranks[a])
  }

  predicate ArtifactBefore(ranks: map<Id, Rank>, a: Id, b: Id) {
    if a in ranks && b in ranks then
      if ranks[a].referenced != ranks[b].referenced then !ranks[a].referenced
      else ranks[a].time < ranks[b].time || (ranks[a].time == ranks[b].time && a < b)
    else if a in ranks || b in ranks then a in ranks else a < b
  }

  function ArtifactOrder(ranks: map<Id, Rank>): (Id, Id) -> bool {
    (a, b) => ArtifactBefore(ranks, a, b)
  }

  lemma ArtifactOrderIsStrict(ranks: map<Id, Rank>)
    ensures StrictOrder(ArtifactOrder(ranks))
  {
    assert forall a, b :: ArtifactOrder(ranks)(a, b) == ArtifactBefore(ranks, a, b);
  }

  lemma RankingIsUnique(s: Store, r1: map<Id, Rank>, r2: map<Id, Rank>)
    requires IsRanking(s, r1) && IsRanking(s, r2)
    ensures r1 == r2
  {
    forall a <- r1 ensures r1[a] == r2[a] {
      assert IsRank(s, a, r1[a]) && IsRank(s, a, r2[a]);
    }
  }

  predicate Evictable(s: Store, artifact: Id) {
    artifact in s.artifacts && s.artifacts[artifact].safe && !Active(s, artifact)
  }

  function EligibleOnly(s: Store, order: seq<Id>): seq<Id> {
    if order == [] then []
    else (if Evictable(s, order[0]) then [order[0]] else []) + EligibleOnly(s, order[1..])
  }

  function SizeOf(s: Store, artifacts: seq<Id>): nat {
    if artifacts == [] then 0
    else (if artifacts[0] in s.artifacts then s.artifacts[artifacts[0]].size else 0) + SizeOf(s, artifacts[1..])
  }

  // The artifacts the loop of cleanupLocked takes, given the excess of used bytes over the target.
  function Evict(s: Store, order: seq<Id>, excess: int): seq<Id> {
    if order == [] || excess <= 0 then []
    else if Evictable(s, order[0]) then [order[0]] + Evict(s, order[1..], excess - s.artifacts[order[0]].size)
    else Evict(s, order[1..], excess)
  }

  // They are the shortest prefix of the eligible artifacts, in eviction order, that covers the
  // excess, or all of them.
  lemma {:induction false} EvictIsShortestPrefix(s: Store, order: seq<Id>, excess: int)
    ensures var eligible := EligibleOnly(s, order);
      var taken := Evict(s, order, excess);
      && |taken| <= |eligible| && taken == eligible[..|taken|]
      && (taken == eligible || SizeOf(s, taken) >= excess)
      && (forall m | 0 <= m < |taken| :: SizeOf(s, eligible[..m]) < excess)
  {
    var eligible, taken := EligibleOnly(s, order), Evict(s, order, excess);
    if order != [] && excess > 0 {
      if Evictable(s, order[0]) {
        var size := s.artifacts[order[0]].size;
        EvictIsShortestPrefix(s, order[1..], excess - size);
        var rest, tail := EligibleOnly(s, order[1..]), Evict(s, order[1..], excess - size);
        assert eligible[1..] == rest && taken[1..] == tail;
        forall m | 0 <= m < |taken| ensures SizeOf(s, eligible[..m]) < excess {
          if m > 0 {
            assert eligible[..m][1..] == rest[..m - 1];
          }
        }
      } else {
        EvictIsShortestPrefix(s, order[1..], excess);
        assert eligible == EligibleOnly(s, order[1..]);
      }
    }
  }

  // ----- Effects ---------------------------------------------------------------------------------------

  function PruneJob(s: Store, id: Id): Store
    requires id in s.jobs
  {
    s.(jobs := s.jobs - {id},
    tombstones := if s.jobs[id].tombstone.Some? then s.tombstones[id := s.jobs[id].tombstone.value] else s.tombstones)
  }

  function PruneJobs(s: Store, ids: seq<Id>): Store {
    if ids == [] then s
    else
      var s1 := PruneJobs(s, ids[..|ids| - 1]);
      if ids[|ids| - 1] in s1.jobs then PruneJob(s1, ids[|ids| - 1]) else s1
  }

  function RemoveArtifacts(s: Store, ids: seq<Id>): Store {
    s.(artifacts := s.artifacts - (set id | id in ids))
  }

  // What the preview subtracts: the files of the pruned jobs less the tombstones they leave.
  function PruneGain(s: Store, ids: seq<Id>): int {
    if ids == [] then 0
    else PruneGain(s, ids[..|ids| - 1]) + JobGain(s, ids[|ids| - 1])
  }

  function JobGain(s: Store, id: Id): int {
    if id !in s.jobs then 0 else s.jobs[id].files - if s.jobs[id].tombstone.Some? then s.jobs[id].tombstone.value else 0
  }

  // By how much the rescan after one prune is above the estimate: the part of a reservation that the
  // job's files had been using is reserved again, and a tombstone already on disk is not added.
  function JobDrift(s: Store, id: Id): int {
    if id !in s.jobs then 0
    else
      (if id in s.held then Min(s.held[id], s.jobs[id].files) else 0)
      - (if s.jobs[id].tombstone.Some? && id in s.tombstones then s.tombstones[id] else 0)
  }

  function Min(a: int, b: int): int {
    if a < b then a else b
  }

  function Drift(s: Store, ids: seq<Id>): int {
    if ids == [] then 0 else Drift(s, ids[..|ids| - 1]) + JobDrift(s, ids[|ids| - 1])
  }

  lemma OutstandingAfter(s: Store, id: Id)
    requires id in s.jobs
    ensures Reserved(PruneJob(s, id)) == Reserved(s) + if id in s.held then Min(s.held[id], s.jobs[id].files) else 0
  {
    var s' := PruneJob(s, id);
    if id in s.held {
      assert Outstanding(s') == Outstanding(s)[id := s.held[id]];
      TotalUpdated(Outstanding(s), id, s.held[id]);
    } else {
      assert Outstanding(s') == Outstanding(s);
    }
  }

  lemma UsedAfter(s: Store, id: Id)
    requires id in s.jobs
    ensures Used(PruneJob(s, id)) == Used(s) - JobGain(s, id) - if s.jobs[id].tombstone.Some? && id in s.tombstones then s.tombstones[id] else 0
  {
    var s' := PruneJob(s, id);
    assert FileBytes(s'.jobs) == FileBytes(s.jobs) - {id};
    TotalWithout(FileBytes(s.jobs), id);
    if s.jobs[id].tombstone.Some? {
      assert Counts(s'.tombstones) == Counts(s.tombstones)[id := s.jobs[id].tombstone.value];
      TotalUpdated(Counts(s.tombstones), id, s.jobs[id].tombstone.value);
    }
  }

  lemma {:induction false} PruneFrame(s: Store, ids: seq<Id>)
    ensures var s' := PruneJobs(s, ids);
      && s' == s.(jobs := s'.jobs, tombstones := s'.tombstones)
      && (forall id :: id in s'.jobs <==> id in s.jobs && id !in ids)
      && (forall id <- s'.jobs :: s'.jobs[id] == s.jobs[id])
      && (forall id :: id !in ids ==> (id in s'.tombstones <==> id in s.tombstones) && (id in s.tombstones ==> s'.tombstones[id] == s.tombstones[id]))
  {
    if ids != [] {
      var init, last := ids[..|ids| - 1], ids[|ids| - 1];
      PruneFrame(s, init);
      assert ids == init + [last];
    }
  }

  // The rescan after the jobs are gone, used and reserved together, exactly.
  lemma {:induction false} RescanExactly(s: Store, ids: seq<Id>)
    requires Distinct(ids) && forall id <- ids :: id in s.jobs
    ensures var s' := PruneJobs(s, ids);
      Used(s') + Reserved(s') == Used(s) + Reserved(s) - PruneGain(s, ids) + Drift(s, ids) && s'.limit == s.limit
  {
    if ids != [] {
      hide Used, Reserved;
      var init, last := ids[..|ids| - 1], ids[|ids| - 1];
      assert forall id <- init :: id in ids;
      RescanExactly(s, init);
      PruneFrame(s, init);
      assert last in ids && last !in init;
      var s1 := PruneJobs(s, init);
      assert JobGain(s1, last) == JobGain(s, last) && JobDrift(s1, last) == JobDrift(s, last);
      assert PruneJobs(s, ids) == PruneJob(s1, last);
      hide PruneJobs, PruneJob;
      UsedAfter(s1, last);
      OutstandingAfter(s1, last);
    }
  }

  // Quiescent for these jobs: their reservations are released and no earlier tombstone is theirs.
  ghost predicate Quiescent(s: Store, ids: seq<Id>) {
    forall id <- ids :: id !in s.held && id !in s.tombstones
  }

  lemma {:induction false} QuiescentDriftsNot(s: Store, ids: seq<Id>)
    requires Quiescent(s, ids)
    ensures Drift(s, ids) == 0
  {
    if ids != [] {
      assert forall id <- ids[..|ids| - 1] :: id in ids;
      QuiescentDriftsNot(s, ids[..|ids| - 1]);
      assert ids[|ids| - 1] in ids;
    }
  }

  // ----- Evictions are determined -----------------------------------------------------------------------

  // The shortest prefix of the eligible artifacts that covers the excess, or all of them.
  ghost predicate Covers(s: Store, order: seq<Id>, excess: int, taken: seq<Id>) {
    var eligible := EligibleOnly(s, order);
    && |taken| <= |eligible| && taken == eligible[..|taken|]
    && (taken == eligible || SizeOf(s, taken) >= excess)
    && forall m | 0 <= m < |taken| :: SizeOf(s, eligible[..m]) < excess
  }

  lemma EvictIsOnlyCover(s: Store, order: seq<Id>, excess: int, taken: seq<Id>)
    ensures taken == Evict(s, order, excess) <==> Covers(s, order, excess, taken)
  {
    EvictIsShortestPrefix(s, order, excess);
    var evicted := Evict(s, order, excess);
    if Covers(s, order, excess, taken) {
      NotShorter(s, order, excess, taken, evicted);
      NotShorter(s, order, excess, evicted, taken);
    }
  }

  lemma NotShorter(s: Store, order: seq<Id>, excess: int, a: seq<Id>, b: seq<Id>)
    requires Covers(s, order, excess, a) && Covers(s, order, excess, b)
    ensures |a| >= |b|
  {
    assert a == EligibleOnly(s, order)[..|a|];
  }
}
