/**
 The plan of the legacy cleanup (packaging/migration/cleanup.py, make_plan) and the limits that the
 migration checks afterwards (packaging/migration/migrate.py, check_retention_ready).

 A path is the sequence of its parts.  A file's digest stands for its content; the content of the
 two kinds of record files is what they decode to.
 */
module LegacyPlan {
  import opened Text
  import opened Ordering
  import opened Sets
  import StorageBudget

  type Path = seq<string>
  type Key = string

  const KEPT_JOBS := 30
  const BYTE_LIMIT := 10 * 1024 * 1024 * 1024 - 4 * 1024 * 1024

  datatype Content =
    | JobRecord(id: Key, terminal: bool, created: Option<int>, artifact: Key, requestId: string)
    | ArtifactRecord(id: Key, valid: bool)
    | Blob(digest: int)

  datatype Entry = Entry(size: nat, mode: nat, owner: nat, content: Content)

  type Files = map<Path, Entry>

  // ----- Names ------------------------------------------------------------------------------------

  predicate HexDigits(s: string) {
    forall c <- s :: '0' <= c <= '9' || 'a' <= c <= 'f'
  }

  predicate ValidKey(s: string) {
    1 <= |s| <= 128 && Alphanumeric(s[0]) && forall c <- s :: Alphanumeric(c) || c == '_' || c == '.' || c == '-'
  }

  predicate InJobs(p: Path) {
    |p| >= 3 && p[0] == "jobs"
  }

  predicate InArtifacts(p: Path) {
    |p| >= 4 && p[0] == "store" && p[1] == "artifacts"
  }

  // A file where only directories may be, or an interrupted import.
  predicate Stray(p: Path) {
    || (1 <= |p| < 3 && p[0] == "jobs")
    || (2 <= |p| < 4 && p[0] == "store" && p[1] == "artifacts")
    || (2 <= |p| && p[0] == "store" && p[1] == "tmp")
  }

  function JobKeys(files: Files): set<Key> {
    set p | p in files && InJobs(p) :: p[1]
  }

  function ArtifactKeys(files: Files): set<Key> {
    set p | p in files && InArtifacts(p) :: p[2]
  }

  function JobPath(k: Key): Path {
    ["jobs", k, "job.json"]
  }

  function ArtifactPath(k: Key): Path {
    ["store", "artifacts", k, "artifact.json"]
  }

  // ----- Records ------------------------------------------------------------------------------------

  predicate HasJob(files: Files, k: Key) {
    JobPath(k) in files && files[JobPath(k)].content.JobRecord?
  }

  function JobOf(files: Files, k: Key): (job: Content)
    requires HasJob(files, k)
    ensures job.JobRecord?
  {
    files[JobPath(k)].content
  }

  predicate GoodJob(files: Files, k: Key) {
    && ValidKey(k) && HasJob(files, k)
    && var job := JobOf(files, k);
      && job.id == k && job.terminal && job.created.Some? && job.artifact in ArtifactKeys(files)
      && (job.requestId != "" ==> |job.requestId| == 32 && HexDigits(job.requestId))
  }

  predicate GoodArtifact(files: Files, k: Key) {
    && |k| == 64 && HexDigits(k) && ArtifactPath(k) in files
    && files[ArtifactPath(k)].content == ArtifactRecord(k, true)
  }

  ghost predicate WellFormed(files: Files) {
    && (forall p <- files :: !Stray(p))
    && (forall k <- ArtifactKeys(files) :: GoodArtifact(files, k))
    && (forall k <- JobKeys(files) :: GoodJob(files, k))
  }

  // ----- The order of jobs ----------------------------------------------------------------------------

  function Created(files: Files, k: Key): int {
    if HasJob(files, k) && JobOf(files, k).created.Some? then JobOf(files, k).created.value else 0
  }

  predicate Newer(files: Files, a: Key, b: Key) {
    Created(files, a) > Created(files, b) || (Created(files, a) == Created(files, b) && Less(b, a))
  }

  function NewestFirst(files: Files): (Key, Key) -> bool {
    (a, b) => Newer(files, a, b)
  }

  lemma NewestFirstIsStrict(files: Files)
    ensures StrictOrder(NewestFirst(files))
  {
    hide Less, Created;
    forall a, b ensures !Less(a, a) && (a == b || Less(a, b) || Less(b, a)) { LessTotal(a, b); }
    forall a, b, c | Less(a, b) && Less(b, c) ensures Less(a, c) { LessTransitive(a, b, c); }
    assert forall a, b :: NewestFirst(files)(a, b) == Newer(files, a, b);
    forall a, b, c | Newer(files, a, b) && Newer(files, b, c) ensures Newer(files, a, c) {
      if Created(files, a) == Created(files, c) { LessTransitive(c, b, a); }
    }
  }

  // ----- The selection ----------------------------------------------------------------------------------

  // Fewer than 30 jobs are newer.
  ghost function KeepJobs(files: Files): set<Key> {
    set k | k in JobKeys(files) && |Ahead(JobKeys(files), NewestFirst(files), k)| < KEPT_JOBS
  }

  function ArtifactsOf(files: Files, jobs: set<Key>): set<Key> {
    set k | k in jobs && HasJob(files, k) :: JobOf(files, k).artifact
  }

  // Files of a job or an artifact that is not kept.
  predicate Removed(p: Path, jobs: set<Key>, artifacts: set<Key>) {
    (InJobs(p) && p[1] !in jobs) || (InArtifacts(p) && p[2] !in artifacts)
  }

  function Removal(files: Files, jobs: set<Key>, artifacts: set<Key>): set<Path> {
    set p | p in files && Removed(p, jobs, artifacts)
  }

  function Sizes(files: Files): map<Path, int> {
    map p <- files :: files[p].size
  }

  predicate Protected(files: Files, k: Key) {
    HasJob(files, k) && JobOf(files, k).requestId != ""
  }

  datatype Plan = Plan(files: Files, remove: set<Path>, keepJobs: set<Key>, keepArtifacts: set<Key>,
                       removeJobs: set<Key>, removeArtifacts: set<Key>, retainedBytes: int)

  ghost predicate IsPlan(files: Files, plan: Plan) {
    && plan.files == files
    && plan.keepJobs == KeepJobs(files) && plan.keepArtifacts == ArtifactsOf(files, plan.keepJobs)
    && plan.removeJobs == JobKeys(files) - plan.keepJobs && plan.removeArtifacts == ArtifactKeys(files) - plan.keepArtifacts
    && plan.remove == Removal(files, plan.keepJobs, plan.keepArtifacts)
    && plan.retainedBytes == StorageBudget.Total(Sizes(files - plan.remove))
  }

  // When a plan exists: every record is in order, no old job holds a request ID, and what is kept fits.
  ghost predicate Plannable(files: Files) {
    && WellFormed(files)
    && (forall k <- JobKeys(files) :: Protected(files, k) ==> k in KeepJobs(files))
    && StorageBudget.Total(Sizes(files - Removal(files, KeepJobs(files), ArtifactsOf(files, KeepJobs(files))))) <= BYTE_LIMIT
  }

  method CheckRecords(files: Files) returns (ok: bool)
    ensures ok <==> WellFormed(files)
  {
    ok := (forall p <- files :: !Stray(p)) && (forall k <- ArtifactKeys(files) :: GoodArtifact(files, k)) && (forall k <- JobKeys(files) :: GoodJob(files, k));
  }

  method MakePlan(files: Files) returns (plan: Option<Plan>)
    ensures plan.Some? <==> Plannable(files)
    ensures plan.Some? ==> IsPlan(files, plan.value)
  {
    hide WellFormed, Removal, Protected, ArtifactsOf;
    var ok := CheckRecords(files);
    if !ok {
      return None;
    }
    NewestFirstIsStrict(files);
    var ordered := Sort(JobKeys(files), NewestFirst(files));
    var keepJobs := set i | 0 <= i < |ordered| && i < KEPT_JOBS :: ordered[i];
    FirstAreKept(files, ordered);
    if exists k <- JobKeys(files) :: Protected(files, k) && k !in keepJobs {
      return None;
    }
    var keepArtifacts := ArtifactsOf(files, keepJobs);
    var remove := Removal(files, keepJobs, keepArtifacts);
    var retained := StorageBudget.AddPositive(Sizes(files - remove));
    if retained > BYTE_LIMIT {
      return None;
    }
    return Some(Plan(files, remove, keepJobs, keepArtifacts, JobKeys(files) - keepJobs, ArtifactKeys(files) - keepArtifacts, retained));
  }

  lemma FirstAreKept(files: Files, ordered: seq<Key>)
    requires Lists(ordered, JobKeys(files), NewestFirst(files))
    ensures KeepJobs(files) == set i | 0 <= i < |ordered| && i < KEPT_JOBS :: ordered[i]
  {
    NewestFirstIsStrict(files);
    var keys, before := JobKeys(files), NewestFirst(files);
    hide JobKeys, NewestFirst;
    var first := set i | 0 <= i < |ordered| && i < KEPT_JOBS :: ordered[i];
    forall k ensures k in KeepJobs(files) <==> k in first {
      if k in keys {
        assert k in ordered;
        var i :| 0 <= i < |ordered| && ordered[i] == k;
        RankIsIndex(ordered, keys, before, i);
        if k in first {
          var j :| 0 <= j < |ordered| && j < KEPT_JOBS && ordered[j] == k;
          RankIsIndex(ordered, keys, before, j);
        }
      } else {
        assert forall i | 0 <= i < |ordered| :: ordered[i] in ordered;
      }
    }
  }

  // ----- What a cleanup by the plan leaves -----------------------------------------------------------------

  // job_records: a job is a directory of jobs/ with a job.json.
  function Finished(files: Files): set<Key> {
    set p | p in files && InJobs(p) && |p| == 3 && p[2] == "job.json" && files[p].content.JobRecord? && files[p].content.terminal :: p[1]
  }

  // check_retention_ready of the migration.
  ghost predicate RetentionReady(files: Files) {
    |Finished(files)| <= KEPT_JOBS && StorageBudget.Total(Sizes(files)) <= BYTE_LIMIT
  }

  ghost function Cleaned(files: Files): Files {
    files - Removal(files, KeepJobs(files), ArtifactsOf(files, KeepJobs(files)))
  }

  lemma AtMostThirty(files: Files)
    ensures |KeepJobs(files)| == if |JobKeys(files)| <= KEPT_JOBS then |JobKeys(files)| else KEPT_JOBS
  {
    NewestFirstIsStrict(files);
    LowRankCount(JobKeys(files), NewestFirst(files), KEPT_JOBS);
  }

  // `a` is below `b` when at the first difference it has the smaller character, or ends.
  ghost predicate Below(a: string, b: string) {
    exists i | 0 <= i <= |a| && i < |b| :: a[..i] == b[..i] && (i == |a| || a[i] < b[i])
  }

  // A kept job and a removed one, by their own records.
  ghost predicate KeptBefore(files: Files, kept: Key, removed: Key) {
    && HasJob(files, kept) && HasJob(files, removed) && JobOf(files, kept).created.Some? && JobOf(files, removed).created.Some?
    && var k, r := JobOf(files, kept).created.value, JobOf(files, removed).created.value;
      k > r || (k == r && Below(removed, kept))
  }

  // Every plan keeps 30 jobs, or all of fewer, and none that it removes is newer than one it keeps.
  lemma NewestAreKept(files: Files, plan: Plan)
    requires Plannable(files) && IsPlan(files, plan)
    ensures |plan.keepJobs| == if |JobKeys(files)| <= 30 then |JobKeys(files)| else 30
    ensures plan.keepJobs + plan.removeJobs == JobKeys(files) && plan.keepJobs !! plan.removeJobs
    ensures forall k <- plan.keepJobs, r <- plan.removeJobs :: KeptBefore(files, k, r)
  {
    hide WellFormed, JobKeys, ArtifactKeys, KeepJobs, Removal, ArtifactsOf, KeptBefore, Sizes, Protected;
    AtMostThirty(files);
    KeepIsPart(files);
    forall k, r | k in plan.keepJobs && r in plan.removeJobs ensures KeptBefore(files, k, r) {
      KeptIsNewer(files, k, r);
    }
  }

  lemma KeepIsPart(files: Files)
    ensures KeepJobs(files) <= JobKeys(files)
  {
  }

  lemma KeptIsNewer(files: Files, k: Key, r: Key)
    requires WellFormed(files) && k in KeepJobs(files) && r in JobKeys(files) && r !in KeepJobs(files)
    ensures KeptBefore(files, k, r)
  {
    assert GoodJob(files, k) && GoodJob(files, r);
    hide WellFormed, JobKeys, GoodJob, Below, Less;
    NewestFirstIsStrict(files);
    LowRankIsBefore(JobKeys(files), NewestFirst(files), KEPT_JOBS, k, r);
    hide KeepJobs, Ahead;
    assert Newer(files, k, r);
    GoodIsDated(files, k);
    GoodIsDated(files, r);
    BelowIsLess(r, k);
  }

  lemma GoodIsDated(files: Files, k: Key)
    requires GoodJob(files, k)
    ensures HasJob(files, k) && JobOf(files, k).created.Some?
  {
  }

  lemma BelowIsLess(a: string, b: string)
    ensures Below(a, b) <==> Less(a, b)
  {
    LessIsLexicographic(a, b);
  }

  lemma CleanedKeys(files: Files)
    requires WellFormed(files)
    ensures JobKeys(Cleaned(files)) == KeepJobs(files)
    ensures ArtifactKeys(Cleaned(files)) == ArtifactsOf(files, KeepJobs(files))
    ensures forall p <- files :: !InJobs(p) && !InArtifacts(p) ==> p in Cleaned(files)
    ensures forall p <- files :: InJobs(p) && p[1] in KeepJobs(files) ==> p in Cleaned(files)
    ensures forall p <- files :: InArtifacts(p) && p[2] in ArtifactsOf(files, KeepJobs(files)) ==> p in Cleaned(files)
  {
    var keep, arts, after := KeepJobs(files), ArtifactsOf(files, KeepJobs(files)), Cleaned(files);
    assert forall k <- keep :: k in JobKeys(files) && GoodJob(files, k);
    hide KeepJobs;
    forall k | k in keep ensures k in JobKeys(after) {
      assert JobPath(k) in after && InJobs(JobPath(k));
    }
    forall k | k in arts ensures k in ArtifactKeys(after) {
      assert k in ArtifactKeys(files) && GoodArtifact(files, k);
      assert ArtifactPath(k) in after && InArtifacts(ArtifactPath(k));
    }
  }

  lemma KeptRecords(files: Files, k: Key)
    requires WellFormed(files) && k in KeepJobs(files)
    ensures HasJob(files, k) && HasJob(Cleaned(files), k) && JobOf(Cleaned(files), k) == JobOf(files, k)
    ensures ArtifactPath(JobOf(files, k).artifact) in Cleaned(files)
  {
    assert k in JobKeys(files) && GoodJob(files, k);
    var a := JobOf(files, k).artifact;
    assert a in ArtifactKeys(files) && GoodArtifact(files, a);
    CleanedKeys(files);
    hide KeepJobs, WellFormed;
    assert InJobs(JobPath(k)) && JobPath(k)[1] == k;
    assert InArtifacts(ArtifactPath(a)) && ArtifactPath(a)[2] == a;
  }

  // After the cleanup the migration's limits hold; every kept job still has its record and its
  // artifact's; and no request ID is forgotten.
  lemma CleanedIsReady(files: Files)
    requires Plannable(files)
    ensures RetentionReady(Cleaned(files))
    ensures forall k <- KeepJobs(files) :: HasJob(Cleaned(files), k) && ArtifactPath(JobOf(Cleaned(files), k).artifact) in Cleaned(files)
    ensures forall k <- JobKeys(files) :: Protected(files, k) ==> Protected(Cleaned(files), k)
  {
    hide KeepJobs, Cleaned, WellFormed, HasJob, JobOf, JobKeys, ArtifactsOf, Removal;
    CleanedKeys(files);
    AtMostThirty(files);
    BytesFit(files);
    forall k | k in KeepJobs(files)
      ensures HasJob(Cleaned(files), k) && ArtifactPath(JobOf(Cleaned(files), k).artifact) in Cleaned(files)
      ensures HasJob(files, k) && JobOf(Cleaned(files), k) == JobOf(files, k)
    {
      KeptRecords(files, k);
    }
    FinishedAreJobs(Cleaned(files));
    SubsetBySize(Finished(Cleaned(files)), KeepJobs(files));
  }

  lemma FinishedAreJobs(files: Files)
    ensures Finished(files) <= JobKeys(files)
  {
  }

  // A second plan has nothing to remove.
  lemma CleaningIsIdempotent(files: Files)
    requires Plannable(files)
    ensures Plannable(Cleaned(files)) && Cleaned(Cleaned(files)) == Cleaned(files)
  {
    var after := Cleaned(files);
    hide KeepJobs, WellFormed, Cleaned, JobKeys, ArtifactKeys, Removal, ArtifactsOf, Sizes, RetentionReady, Protected;
    CleanedIsReady(files);
    CleanedKeys(files);
    AllAreKept(after, files);
    CleanedIsWellFormed(files);
    BytesFit(files);
    ArtifactsOfCleaned(files);
    NothingRemoved(after);
    assert after - {} == after;
    UseCleaned(after);
  }

  lemma NothingRemoved(files: Files)
    ensures Removal(files, JobKeys(files), ArtifactKeys(files)) == {}
  {
  }

  lemma UseCleaned(files: Files)
    ensures Cleaned(files) == files - Removal(files, KeepJobs(files), ArtifactsOf(files, KeepJobs(files)))
  {
  }

  lemma ArtifactsOfCleaned(files: Files)
    requires WellFormed(files)
    ensures ArtifactsOf(Cleaned(files), KeepJobs(files)) == ArtifactsOf(files, KeepJobs(files))
  {
    hide WellFormed, Cleaned, KeepJobs;
    forall k | k in KeepJobs(files) ensures HasJob(files, k) && HasJob(Cleaned(files), k) && JobOf(Cleaned(files), k) == JobOf(files, k) {
      KeptRecords(files, k);
    }
  }

  // With at most 30 jobs, every job is kept.
  lemma AllAreKept(after: Files, files: Files)
    requires JobKeys(after) == KeepJobs(files)
    ensures KeepJobs(after) == JobKeys(after)
  {
    AtMostThirty(files);
    NewestFirstIsStrict(after);
    var keys, before := JobKeys(after), NewestFirst(after);
    forall k | k in keys ensures |Ahead(keys, before, k)| < KEPT_JOBS {
      SubsetBySize(Ahead(keys, before, k), keys - {k});
    }
  }

  lemma CleanedJob(files: Files, k: Key)
    requires WellFormed(files) && k in KeepJobs(files)
    ensures GoodJob(Cleaned(files), k)
  {
    assert k in JobKeys(files) && GoodJob(files, k);
    hide WellFormed, Cleaned, JobKeys, ArtifactKeys;
    KeptRecords(files, k);
    CleanedKeys(files);
  }

  lemma CleanedArtifact(files: Files, k: Key)
    requires WellFormed(files) && k in ArtifactKeys(Cleaned(files))
    ensures GoodArtifact(Cleaned(files), k)
  {
    CleanedKeys(files);
    assert k in ArtifactKeys(files) && GoodArtifact(files, k);
    hide WellFormed, KeepJobs;
    assert InArtifacts(ArtifactPath(k)) && ArtifactPath(k)[2] == k;
  }

  lemma CleanedIsWellFormed(files: Files)
    requires WellFormed(files)
    ensures WellFormed(Cleaned(files))
  {
    var after := Cleaned(files);
    assert forall p <- after :: p in files && !Stray(p);
    CleanedKeys(files);
    hide KeepJobs, Cleaned, JobKeys, ArtifactKeys, GoodJob, GoodArtifact, ArtifactsOf;
    forall k | k in JobKeys(after) ensures GoodJob(after, k) {
      CleanedJob(files, k);
    }
    forall k | k in ArtifactKeys(after) ensures GoodArtifact(after, k) {
      CleanedArtifact(files, k);
    }
  }

  lemma BytesFit(files: Files)
    requires Plannable(files)
    ensures StorageBudget.Total(Sizes(Cleaned(files))) <= BYTE_LIMIT
  {
  }
}
