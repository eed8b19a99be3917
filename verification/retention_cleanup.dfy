/**
 cleanupLocked as it runs (internal/jobs/retention.go:154-301), and what its two modes promise:
 preview lists exactly what apply will remove, apply keeps exactly the newest jobs and removes no
 protected artifact.
 */
module RetentionCleanup {
  import opened Text
  import opened Sets
  import opened Ordering
  import opened StorageBudget
  import opened Retention

  // By how much used bytes exceed the target: estimated without touching anything, or measured
  // after the jobs have gone.
  ghost function PreviewExcess(s: Store, ids: seq<Id>, need: int): int {
    Used(s) - PruneGain(s, ids) - (s.limit - Reserved(s) - need)
  }

  ghost function ApplyExcess(s: Store, ids: seq<Id>, need: int): int {
    var s' := PruneJobs(s, ids);
    Used(s') - (s'.limit - Reserved(s') - need)
  }

  ghost predicate Selects(s: Store, excess: int, artifactIds: seq<Id>) {
    exists ranks: map<Id, Rank>, order: seq<Id> ::
      && IsRanking(s, ranks) && Lists(order, s.artifacts.Keys, ArtifactOrder(ranks))
      && artifactIds == Evict(s, order, excess)
  }

  // ----- Selections are unique ------------------------------------------------------------------

  lemma PruneListIsUnique(jobs: map<Id, Job>, a: seq<Id>, b: seq<Id>)
    requires IsPruneList(jobs, a) && IsPruneList(jobs, b)
    ensures a == b
  {
    hide Keeps;
    JobOrderIsStrict(jobs);
    var items := set id | id in a;
    ListingIsUnique(a, b, items, JobOrder(jobs));
  }

  lemma SelectionIsUnique(s: Store, excess: int, a: seq<Id>, b: seq<Id>)
    requires Selects(s, excess, a) && Selects(s, excess, b)
    ensures a == b
  {
    hide IsRank, Evict, ArtifactBefore;
    var r1: map<Id, Rank>, o1: seq<Id> :| IsRanking(s, r1) && Lists(o1, s.artifacts.Keys, ArtifactOrder(r1)) && a == Evict(s, o1, excess);
    var r2: map<Id, Rank>, o2: seq<Id> :| IsRanking(s, r2) && Lists(o2, s.artifacts.Keys, ArtifactOrder(r2)) && b == Evict(s, o2, excess);
    RankingIsUnique(s, r1, r2);
    ArtifactOrderIsStrict(r1);
    ListingIsUnique(o1, o2, s.artifacts.Keys, ArtifactOrder(r1));
  }

  lemma SortedIsDistinct(ids: seq<Id>, jobs: map<Id, Job>)
    requires Sorted(ids, JobOrder(jobs))
    ensures Distinct(ids)
  {
    JobOrderIsStrict(jobs);
  }

  lemma DriftIsDifference(s: Store, ids: seq<Id>, need: int)
    requires Distinct(ids) && forall id <- ids :: id in s.jobs
    ensures ApplyExcess(s, ids, need) == PreviewExcess(s, ids, need) + Drift(s, ids)
  {
    RescanExactly(s, ids);
    hide Used, Reserved, Drift, PruneGain, PruneJobs;
  }

  // The two modes always list the same jobs.  Their excess of bytes over the target is the same if and
  // only if nothing drifts, and their artifacts are the same if and only if what the preview listed is
  // also the shortest cover of the excess that it did not see.
  lemma PreviewExactly(s: Store, need: int, ranks: map<Id, Rank>, order: seq<Id>, previewJobs: seq<Id>, previewArtifacts: seq<Id>, jobIds: seq<Id>, artifactIds: seq<Id>)
    requires IsRanking(s, ranks) && Lists(order, s.artifacts.Keys, ArtifactOrder(ranks))
    requires IsPruneList(s.jobs, previewJobs) && Selects(s, PreviewExcess(s, previewJobs, need), previewArtifacts)
    requires IsPruneList(s.jobs, jobIds) && Selects(s, ApplyExcess(s, jobIds, need), artifactIds)
    ensures previewJobs == jobIds
    ensures ApplyExcess(s, jobIds, need) == PreviewExcess(s, jobIds, need) + Drift(s, jobIds)
    ensures ApplyExcess(s, jobIds, need) == PreviewExcess(s, jobIds, need) <==> Drift(s, jobIds) == 0
    ensures previewArtifacts == artifactIds <==> Covers(s, order, PreviewExcess(s, jobIds, need) + Drift(s, jobIds), previewArtifacts)
  {
    hide Keeps, Selects, Used, Reserved, Drift, PreviewExcess, ApplyExcess, Covers, Evict, IsRanking, Lists;
    PruneListIsUnique(s.jobs, previewJobs, jobIds);
    PruneListFacts(s.jobs, jobIds);
    hide IsPruneList;
    DriftIsDifference(s, jobIds, need);
    var excess := ApplyExcess(s, jobIds, need);
    SelectedBy(s, excess, ranks, order, Evict(s, order, excess));
    SelectionIsUnique(s, excess, artifactIds, Evict(s, order, excess));
    EvictIsOnlyCover(s, order, excess, previewArtifacts);
  }

  // In particular on a store whose prunable jobs have released their reservations and have no
  // tombstone yet: what preview lists is what a successful apply removes, in the same order.
  lemma PreviewAgreesWithApply(s: Store, need: int, previewJobs: seq<Id>, previewArtifacts: seq<Id>, jobIds: seq<Id>, artifactIds: seq<Id>)
    requires IsPruneList(s.jobs, previewJobs) && Selects(s, PreviewExcess(s, previewJobs, need), previewArtifacts)
    requires IsPruneList(s.jobs, jobIds) && Selects(s, ApplyExcess(s, jobIds, need), artifactIds)
    requires Drift(s, jobIds) == 0
    ensures previewJobs == jobIds && previewArtifacts == artifactIds
  {
    hide Keeps, Selects, Used, Reserved, Drift, PreviewExcess, ApplyExcess;
    PruneListIsUnique(s.jobs, previewJobs, jobIds);
    PruneListFacts(s.jobs, jobIds);
    DriftIsDifference(s, jobIds, need);
    SelectionIsUnique(s, ApplyExcess(s, jobIds, need), previewArtifacts, artifactIds);
  }

  // ----- A store on which they differ ----------------------------------------------------------------------

  // 31 completed jobs, the oldest with 10 bytes of files inside a reservation of 100 not yet released;
  // one unreferenced artifact.  Preview sees nothing to evict, apply evicts it.
  const LATE_RELEASE: Store := Store(95, 0, 0, map id | 0 <= id < 31 :: Job(id, true, 0, if id == 0 then 10 else 0, None),
                                     map[1 := Artifact(0, 5, true)], {}, map[0 := 100], map[])

  lemma PreviewCanDiffer()
    ensures IsPruneList(LATE_RELEASE.jobs, [0])
    ensures Selects(LATE_RELEASE, PreviewExcess(LATE_RELEASE, [0], 0), [])
    ensures Selects(LATE_RELEASE, ApplyExcess(LATE_RELEASE, [0], 0), [1])
  {
    var s := LATE_RELEASE;
    OldestIsPruned();
    LateReleaseBytes();
    var ranks := map[1 := Rank(false, 0)];
    assert IsRanking(s, ranks);
    assert [1][1..] == [];
    assert Lists([1], s.artifacts.Keys, ArtifactOrder(ranks));
    assert Evictable(s, 1);
    assert Evict(s, [1], 0) == [] && Evict(s, [1], 10) == [1];
    hide Lists, IsRanking, Evict;
    SelectedBy(s, 0, ranks, [1], []);
    SelectedBy(s, 10, ranks, [1], [1]);
  }

  function UpTo(n: nat): (ids: set<Id>)
    ensures |ids| == n && forall id :: id in ids <==> 0 < id <= n
  {
    if n == 0 then {} else UpTo(n - 1) + {n}
  }

  lemma OldestIsPruned()
    ensures IsPruneList(LATE_RELEASE.jobs, [0])
  {
    var n := COMPLETED_LIMIT;
    var later := UpTo(n);
    hide Keeps, UpTo, IsPruneList;
    forall id: Id ensures id in LATE_RELEASE.jobs && !Keeps(LATE_RELEASE.jobs, id) <==> id == 0 {
      LateJobs(id);
      if 0 <= id < 31 {
        KeptUnlessOldest(id, later);
      }
    }
    OnlyOnePruned(LATE_RELEASE.jobs, 0);
  }

  lemma LateJobs(id: Id)
    ensures id in LATE_RELEASE.jobs <==> 0 <= id < 31
  {
  }

  lemma OnlyOnePruned(jobs: map<Id, Job>, x: Id)
    requires forall id: Id :: id in jobs && !Keeps(jobs, id) <==> id == x
    ensures IsPruneList(jobs, [x])
  {
    hide Keeps;
  }

  lemma KeptUnlessOldest(id: Id, later: set<Id>)
    requires 0 <= id < 31 && |later| == COMPLETED_LIMIT && forall x :: x in later <==> 0 < x < 31
    ensures Keeps(LATE_RELEASE.jobs, id) <==> id != 0
  {
    NewerAreLater(id);
    var newer := NewerCompleted(LATE_RELEASE.jobs, id);
    hide NewerCompleted;
    assert id in LATE_RELEASE.jobs;
    if id == 0 {
      assert newer == later;
    } else {
      SubsetBySize(newer, later - {id});
    }
  }

  lemma NewerAreLater(id: Id)
    requires 0 <= id < 31
    ensures LATE_RELEASE.jobs[id].terminal && forall x :: x in NewerCompleted(LATE_RELEASE.jobs, id) <==> id < x < 31
  {
  }

  lemma LateReleaseBytes()
    ensures PreviewExcess(LATE_RELEASE, [0], 0) == 0 && ApplyExcess(LATE_RELEASE, [0], 0) == 10
  {
    var s := LATE_RELEASE;
    var files := FileBytes(s.jobs);
    TotalWithout(files, 0);
    AllZero(files - {0});
    assert ArtifactBytes(s.artifacts) == map[][1 := 5];
    TotalUpdated(map[], 1, 5);
    assert Counts(s.tombstones) == map[];
    assert Outstanding(s) == map[][0 := 90];
    TotalUpdated(map[], 0, 90);
    assert Total<Id>(map[]) == 0;
    assert [0][..0] == [];
    assert PruneGain(s, [0]) == 10 && Drift(s, [0]) == 10;
    DriftIsDifference(s, [0], 0);
  }

  lemma {:induction false} AllZero<K(!new)>(m: map<K, int>)
    requires forall id <- m :: m[id] == 0
    ensures Total(m) == 0
    decreases |m|
  {
    if m != map[] {
      var id :| id in m;
      TotalWithout(m, id);
      AllZero(m - {id});
    }
  }

  // ----- The newest completed jobs -----------------------------------------------------------------

  lemma KeptAreFirst(jobs: map<Id, Job>, completed: seq<Id>, i: nat)
    requires Lists(completed, Completed(jobs), JobOrder(jobs)) && i < |completed|
    ensures Keeps(jobs, completed[i]) <==> i < COMPLETED_LIMIT
  {
    JobOrderIsStrict(jobs);
    RankIsIndex(completed, Completed(jobs), JobOrder(jobs), i);
    var id := completed[i];
    assert id in completed && id in Completed(jobs);
    var ahead := Ahead(Completed(jobs), JobOrder(jobs), id);
    assert forall x | x in Completed(jobs) :: JobOrder(jobs)(x, id) == Newer(jobs, x, id);
    assert ahead == NewerCompleted(jobs, id);
  }

  // As many completed jobs are kept as there are, up to 30, and none that is pruned is newer than one
  // that is kept.
  lemma NewestAreKept(jobs: map<Id, Job>, prune: seq<Id>)
    requires IsPruneList(jobs, prune)
    ensures forall r <- prune :: r in jobs && jobs[r].terminal
    ensures forall k <- jobs, r <- prune :: jobs[k].terminal && k !in prune ==>
      jobs[k].created > jobs[r].created || (jobs[k].created == jobs[r].created && k > r)
    ensures |set k | k in Completed(jobs) && k !in prune| == if |Completed(jobs)| <= 30 then |Completed(jobs)| else 30
  {
    JobOrderIsStrict(jobs);
    var keys, before := Completed(jobs), JobOrder(jobs);
    forall id | id in keys ensures NewerCompleted(jobs, id) == Ahead(keys, before, id) {
    }
    forall k, r | k in keys && k !in prune && r in prune
      ensures jobs[k].created > jobs[r].created || (jobs[k].created == jobs[r].created && k > r)
    {
      LowRankIsBefore(keys, before, COMPLETED_LIMIT, k, r);
    }
    LowRankCount(keys, before, COMPLETED_LIMIT);
    assert (set k | k in keys && k !in prune) == set k | k in keys && |Ahead(keys, before, k)| < COMPLETED_LIMIT;
  }

  lemma PruneListIsTail(jobs: map<Id, Job>, completed: seq<Id>)
    requires Lists(completed, Completed(jobs), JobOrder(jobs))
    ensures IsPruneList(jobs, if |completed| > COMPLETED_LIMIT then completed[COMPLETED_LIMIT..] else [])
  {
    var prune := if |completed| > COMPLETED_LIMIT then completed[COMPLETED_LIMIT..] else [];
    forall i | 0 <= i < |completed| ensures Keeps(jobs, completed[i]) <==> i < COMPLETED_LIMIT {
      KeptAreFirst(jobs, completed, i);
    }
    hide Keeps;
    forall id ensures id in prune <==> id in jobs && !Keeps(jobs, id) {
      if id in prune {
        var i :| 0 <= i < |prune| && prune[i] == id;
        assert completed[i + COMPLETED_LIMIT] == id && id in completed;
      }
      if id in jobs && !Keeps(jobs, id) {
        UnkeptIsTerminal(jobs, id);
        assert id in completed;
        var i :| 0 <= i < |completed| && completed[i] == id;
        assert prune[i - COMPLETED_LIMIT] == id;
      }
    }
  }

  lemma UnkeptIsTerminal(jobs: map<Id, Job>, id: Id)
    requires id in jobs && !Keeps(jobs, id)
    ensures id in Completed(jobs)
  {
  }

  // ----- What an apply leaves -------------------------------------------------------------------------

  // After a successful apply the jobs are the unfinished ones and the 30 newest completed ones; every
  // artifact that went was safe, unpinned and not needed by unfinished work; and they are the
  // shortest prefix of the eviction order that reaches the target, or all eligible ones.
  lemma AppliedSelection(s: Store, need: int, jobIds: seq<Id>, artifactIds: seq<Id>)
    requires IsPruneList(s.jobs, jobIds) && Selects(s, ApplyExcess(s, jobIds, need), artifactIds)
    ensures var s' := RemoveArtifacts(PruneJobs(s, jobIds), artifactIds);
      && (forall id :: id in s'.jobs <==> Keeps(s.jobs, id))
      && (forall id <- s'.jobs :: s'.jobs[id] == s.jobs[id])
      && (forall a <- artifactIds :: Evictable(s, a))
      && (forall a :: a in s'.artifacts <==> a in s.artifacts && a !in artifactIds)
      && (forall id <- s.jobs :: !s.jobs[id].terminal && s.jobs[id].artifact in s.artifacts ==> s.jobs[id].artifact in s'.artifacts)
    ensures exists ranks: map<Id, Rank>, order: seq<Id> ::
      && IsRanking(s, ranks) && Lists(order, s.artifacts.Keys, ArtifactOrder(ranks))
      && var eligible := EligibleOnly(s, order);
        && |artifactIds| <= |eligible| && artifactIds == eligible[..|artifactIds|]
        && (artifactIds == eligible || SizeOf(s, artifactIds) >= ApplyExcess(s, jobIds, need))
        && forall m | 0 <= m < |artifactIds| :: SizeOf(s, eligible[..m]) < ApplyExcess(s, jobIds, need)
  {
    hide Keeps, IsRank, Used, Reserved;
    var ranks: map<Id, Rank>, order: seq<Id> :|
      && IsRanking(s, ranks) && Lists(order, s.artifacts.Keys, ArtifactOrder(ranks))
      && artifactIds == Evict(s, order, ApplyExcess(s, jobIds, need));
    EvictIsShortestPrefix(s, order, ApplyExcess(s, jobIds, need));
    EligibleIsEvictable(s, order);
    PruneFrame(s, jobIds);
    forall id ensures id in PruneJobs(s, jobIds).jobs <==> Keeps(s.jobs, id) {
      KeptIsJob(s.jobs, id);
    }
  }

  // An artifact that may go: nothing unknown in it, no pin, no unfinished job on it.
  ghost predicate MayGo(s: Store, a: Id) {
    a in s.artifacts && s.artifacts[a].safe && a !in s.pins && forall id <- s.jobs :: s.jobs[id].artifact == a ==> s.jobs[id].terminal
  }

  // The artifact of a completed job that is kept.
  ghost predicate InHistory(s: Store, a: Id) {
    exists id <- s.jobs :: s.jobs[id].terminal && s.jobs[id].artifact == a && Keeps(s.jobs, id)
  }

  // `x` is evicted before `y`: no kept job is on it, or one is on both; then the one imported, or last
  // used by any job, earlier.
  ghost predicate GoesFirst(s: Store, x: Id, y: Id) {
    && x in s.artifacts && y in s.artifacts
    && (InHistory(s, x) ==> InHistory(s, y))
    && (!InHistory(s, x) && !InHistory(s, y) ==>
          s.artifacts[x].imported < s.artifacts[y].imported || (s.artifacts[x].imported == s.artifacts[y].imported && x < y))
    && (InHistory(s, x) && InHistory(s, y) ==>
          exists u: nat, v: nat :: IsLastUsed(s, x, u) && IsLastUsed(s, y, v) && (u < v || (u == v && x < y)))
  }

  // Every artifact that a cleanup removes may go, and goes before every one that may go and stays.
  lemma EvictionOrder(s: Store, excess: int, artifactIds: seq<Id>)
    requires Selects(s, excess, artifactIds)
    ensures forall a <- artifactIds :: MayGo(s, a)
    ensures forall x <- artifactIds, y <- s.artifacts :: MayGo(s, y) && y !in artifactIds ==> GoesFirst(s, x, y)
  {
    hide IsRanking, Lists, MayGo, GoesFirst, Evict;
    var ranks: map<Id, Rank>, order: seq<Id> :| IsRanking(s, ranks) && Lists(order, s.artifacts.Keys, ArtifactOrder(ranks)) && artifactIds == Evict(s, order, excess);
    EvictedMayGo(s, order, excess);
    forall x, y | x in artifactIds && y in s.artifacts && MayGo(s, y) && y !in artifactIds ensures GoesFirst(s, x, y) {
      EvictedBefore(s, ranks, order, excess, x, y);
    }
  }

  lemma EvictedMayGo(s: Store, order: seq<Id>, excess: int)
    ensures forall a <- Evict(s, order, excess) :: MayGo(s, a)
  {
    hide Evict, Evictable, EligibleOnly;
    EvictIsShortestPrefix(s, order, excess);
    EligibleIsEvictable(s, order);
    forall a | a in Evict(s, order, excess) ensures MayGo(s, a) {
      assert a in EligibleOnly(s, order);
      EvictableMayGo(s, a);
    }
  }

  lemma EvictableMayGo(s: Store, a: Id)
    ensures Evictable(s, a) <==> MayGo(s, a)
  {
  }

  lemma EvictedBefore(s: Store, ranks: map<Id, Rank>, order: seq<Id>, excess: int, x: Id, y: Id)
    requires IsRanking(s, ranks) && Lists(order, s.artifacts.Keys, ArtifactOrder(ranks))
    requires x in Evict(s, order, excess) && y !in Evict(s, order, excess) && y in s.artifacts && MayGo(s, y)
    ensures GoesFirst(s, x, y)
  {
    hide Keeps, IsLastUsed, Evict, EligibleOnly, MayGo, GoesFirst, Evictable;
    EvictIsShortestPrefix(s, order, excess);
    EligibleKeepsOrder(s, order, ArtifactOrder(ranks));
    EligibleHas(s, order, y);
    assert x in EligibleOnly(s, order) && x in order;
    BeforeInOrder(EligibleOnly(s, order), Evict(s, order, excess), ArtifactOrder(ranks), x, y);
    assert x in s.artifacts && IsRank(s, x, ranks[x]) && IsRank(s, y, ranks[y]);
    GoesFirstByRank(s, ranks, x, y);
  }

  lemma GoesFirstByRank(s: Store, ranks: map<Id, Rank>, x: Id, y: Id)
    requires x in s.artifacts && y in s.artifacts && x in ranks && y in ranks && IsRank(s, x, ranks[x]) && IsRank(s, y, ranks[y])
    requires ArtifactBefore(ranks, x, y)
    ensures GoesFirst(s, x, y)
  {
    hide Keeps, IsLastUsed;
    assert InHistory(s, x) == Referenced(s, x) && InHistory(s, y) == Referenced(s, y);
  }

  lemma {:induction false} EligibleKeepsOrder(s: Store, order: seq<Id>, before: (Id, Id) -> bool)
    requires Sorted(order, before)
    ensures Sorted(EligibleOnly(s, order), before)
    ensures forall a <- EligibleOnly(s, order) :: a in order
  {
    hide Evictable;
    if order != [] {
      EligibleKeepsOrder(s, order[1..], before);
      var rest := EligibleOnly(s, order[1..]);
      forall a | a in rest ensures before(order[0], a) {
        assert a in order[1..];
        var i :| 0 <= i < |order[1..]| && order[1..][i] == a;
        assert order[i + 1] == a;
      }
      assert forall i | 0 <= i < |rest| :: rest[i] in rest;
    }
  }

  lemma {:induction false} EligibleHas(s: Store, order: seq<Id>, a: Id)
    requires a in order && MayGo(s, a)
    ensures a in EligibleOnly(s, order)
  {
    assert Evictable(s, a);
    hide Evictable, MayGo;
    if order[0] != a {
      EligibleHas(s, order[1..], a);
    }
  }

  lemma BeforeInOrder(eligible: seq<Id>, taken: seq<Id>, before: (Id, Id) -> bool, x: Id, y: Id)
    requires Sorted(eligible, before) && |taken| <= |eligible| && taken == eligible[..|taken|]
    requires x in taken && y in eligible && y !in taken
    ensures before(x, y)
  {
    var i :| 0 <= i < |taken| && taken[i] == x;
    var j :| 0 <= j < |eligible| && eligible[j] == y;
    assert eligible[i] == x;
    assert forall m | 0 <= m < |taken| :: taken[m] in taken && eligible[m] == taken[m];
  }

  lemma KeptIsJob(jobs: map<Id, Job>, id: Id)
    ensures Keeps(jobs, id) ==> id in jobs
  {
  }

  lemma {:induction false} EligibleIsEvictable(s: Store, order: seq<Id>)
    ensures forall a <- EligibleOnly(s, order) :: Evictable(s, a)
  {
    hide Evictable;
    if order != [] {
      EligibleIsEvictable(s, order[1..]);
    }
  }

  // ----- What an apply achieves ---------------------------------------------------------------------------

  lemma {:induction false} RemovalFrees(s: Store, ids: seq<Id>)
    requires Distinct(ids) && forall a <- ids :: a in s.artifacts
    ensures var s' := RemoveArtifacts(s, ids);
      Used(s') == Used(s) - SizeOf(s, ids) && Reserved(s') == Reserved(s) && s'.limit == s.limit
    decreases |ids|
  {
    hide Total;
    if ids == [] {
      assert s.artifacts - (set id | id in ids) == s.artifacts;
      assert RemoveArtifacts(s, ids) == s;
    } else {
      var first, rest := ids[0], ids[1..];
      assert forall i | 0 <= i < |rest| :: rest[i] == ids[i + 1];
      assert first !in rest && forall a <- rest :: a in s.artifacts;
      RemovalFrees(s, rest);
      var t := RemoveArtifacts(s, rest);
      assert first in t.artifacts && t.artifacts[first] == s.artifacts[first];
      assert (set id | id in ids) == (set id | id in rest) + {first};
      assert s.artifacts - (set id | id in ids) == t.artifacts - {first};
      assert RemoveArtifacts(s, ids) == t.(artifacts := t.artifacts - {first});
      OneRemovalFrees(t, first);
    }
  }

  lemma OneRemovalFrees(t: Store, a: Id)
    requires a in t.artifacts
    ensures var t' := t.(artifacts := t.artifacts - {a}); Used(t') == Used(t) - t.artifacts[a].size && Reserved(t') == Reserved(t)
  {
    TotalWithout(ArtifactBytes(t.artifacts), a);
    assert ArtifactBytes(t.artifacts - {a}) == ArtifactBytes(t.artifacts) - {a};
    assert Outstanding(t.(artifacts := t.artifacts - {a})) == Outstanding(t);
  }

  // A successful apply leaves room for what was needed, or nothing more that may go; and no artifact
  // went after there was room.
  lemma CleanupMakesRoom(s: Store, need: int, jobIds: seq<Id>, artifactIds: seq<Id>)
    requires IsPruneList(s.jobs, jobIds) && Selects(s, ApplyExcess(s, jobIds, need), artifactIds)
    ensures var s' := RemoveArtifacts(PruneJobs(s, jobIds), artifactIds);
      Used(s') + Reserved(s') + need <= s.limit || forall a :: !MayGo(s', a)
    ensures forall m | 0 <= m < |artifactIds| ::
      var partly := RemoveArtifacts(PruneJobs(s, jobIds), artifactIds[..m]); Used(partly) + Reserved(partly) + need > s.limit
  {
    hide Keeps, IsRank, Used, Reserved, Evict, MayGo, EligibleOnly, PruneJobs, RemoveArtifacts, SizeOf;
    var excess := ApplyExcess(s, jobIds, need);
    var ranks: map<Id, Rank>, order: seq<Id> :|
      IsRanking(s, ranks) && Lists(order, s.artifacts.Keys, ArtifactOrder(ranks)) && artifactIds == Evict(s, order, excess);
    var eligible := EligibleOnly(s, order);
    EvictIsShortestPrefix(s, order, excess);
    EligibleIsDistinct(s, ranks, order);
    PruneFrame(s, jobIds);
    var t := PruneJobs(s, jobIds);
    forall m | 0 <= m <= |artifactIds|
      ensures var partly := RemoveArtifacts(t, artifactIds[..m]);
        Used(partly) + Reserved(partly) + need - s.limit == excess - SizeOf(s, eligible[..m])
    {
      assert artifactIds[..m] == eligible[..m];
      SizeIsOfArtifacts(s, t, eligible[..m]);
      RemovalFrees(t, eligible[..m]);
    }
    assert artifactIds[..|artifactIds|] == artifactIds;
    if artifactIds == eligible {
      forall a | MayGo(RemoveArtifacts(t, artifactIds), a) ensures false {
        LeftMayGo(s, jobIds, artifactIds, a);
        EligibleHas(s, order, a);
      }
    }
  }

  lemma EligibleIsDistinct(s: Store, ranks: map<Id, Rank>, order: seq<Id>)
    requires Lists(order, s.artifacts.Keys, ArtifactOrder(ranks))
    ensures Distinct(EligibleOnly(s, order)) && forall a <- EligibleOnly(s, order) :: a in s.artifacts
  {
    hide EligibleOnly;
    ArtifactOrderIsStrict(ranks);
    EligibleKeepsOrder(s, order, ArtifactOrder(ranks));
  }

  lemma {:induction false} SizeIsOfArtifacts(s: Store, t: Store, ids: seq<Id>)
    requires s.artifacts == t.artifacts
    ensures SizeOf(s, ids) == SizeOf(t, ids)
  {
    if ids != [] {
      SizeIsOfArtifacts(s, t, ids[1..]);
    }
  }

  // What may go after the jobs are pruned might have gone before.
  lemma LeftMayGo(s: Store, jobIds: seq<Id>, artifactIds: seq<Id>, a: Id)
    requires IsPruneList(s.jobs, jobIds) && MayGo(RemoveArtifacts(PruneJobs(s, jobIds), artifactIds), a)
    ensures MayGo(s, a) && a in s.artifacts && a !in artifactIds
  {
    PruneFrame(s, jobIds);
    NewestAreKept(s.jobs, jobIds);
    hide Keeps, PruneJobs, IsPruneList;
    var t := RemoveArtifacts(PruneJobs(s, jobIds), artifactIds);
    forall id <- s.jobs | s.jobs[id].artifact == a ensures s.jobs[id].terminal {
      if id !in jobIds {
        assert id in t.jobs && t.jobs[id] == s.jobs[id];
      }
    }
  }

  // ----- The method --------------------------------------------------------------------------------------

  class Cleaner {
    const limit: int
    const maintenance: nat
    var other: nat
    var jobs: map<Id, Job>
    var artifacts: map<Id, Artifact>
    var pins: set<Id>
    var held: map<Id, nat>
    var tombstones: map<Id, nat>

    constructor (s: Store)
      ensures View() == s
    {
      limit, maintenance, other := s.limit, s.maintenance, s.other;
      jobs, artifacts, pins, held, tombstones := s.jobs, s.artifacts, s.pins, s.held, s.tombstones;
    }

    ghost function View(): Store
      reads this
    {
      Store(limit, other, maintenance, jobs, artifacts, pins, held, tombstones)
    }

    method StatusLocked() returns (used: int, reserved: int)
      ensures used == Used(View()) && reserved == Reserved(View())
    {
      assert forall id <- jobs :: FileBytes(jobs)[id] >= 0;
      assert forall id <- artifacts :: ArtifactBytes(artifacts)[id] >= 0;
      var files := AddPositive(FileBytes(jobs));
      var stored := AddPositive(ArtifactBytes(artifacts));
      var journal := AddPositive(Counts(tombstones));
      var outstanding := AddPositive(map id <- held :: if id in jobs then Max(held[id] - jobs[id].files, 0) else held[id] as int);
      used, reserved := other + files + stored + journal, maintenance + outstanding;
      assert Outstanding(View()) == map id <- held :: if id in jobs then Max(held[id] - jobs[id].files, 0) else held[id] as int;
    }

    // The first loop: completed jobs, protected artifacts, and when each artifact was last used.
    method Classify() returns (completed: set<Id>, active: set<Id>, lastUsed: map<Id, nat>)
      ensures completed == Completed(jobs)
      ensures forall a :: a in active <==> Active(View(), a)
      ensures forall a :: IsLastUsed(View(), a, LastUse(lastUsed, a))
    {
      completed, active, lastUsed := {}, pins, map[];
      var rest: set<Id> := jobs.Keys;
      while rest != {}
        invariant rest <= jobs.Keys && completed == Completed(jobs) - rest
        invariant active == pins + set id | id in jobs && id !in rest && !jobs[id].terminal :: jobs[id].artifact
        invariant Timed(jobs, rest, lastUsed)
        decreases |rest|
      {
        var id := AnyOf(rest);
        var job := jobs[id];
        hide Timed;
        TimedNext(jobs, rest, lastUsed, id);
        rest := rest - {id};
        if job.terminal {
          completed := completed + {id};
        } else {
          active := active + {job.artifact};
        }
        if job.created > LastUse(lastUsed, job.artifact) {
          lastUsed := lastUsed[job.artifact := job.created];
        }
      }
      forall a ensures IsLastUsed(View(), a, LastUse(lastUsed, a)) {
        assert Timed(jobs, {}, lastUsed);
      }
    }

    // One job of an apply, behind its tombstone.  Where the disk is faulty an operation may fail, and
    // files already removed stay removed.
    method PruneNext(faulty: bool, prune: seq<Id>, i: nat, ghost s: Store) returns (outcome: Outcome)
      requires i < |prune| && Distinct(prune) && prune[i] in s.jobs
      requires View() == PruneJobs(s, prune[..i])
      modifies this`jobs, this`tombstones
      ensures !faulty ==> !outcome.Failed?
      ensures outcome.Done? ==> View() == PruneJobs(s, prune[..i + 1])
      ensures !outcome.Failed? ==> (outcome.Full? <==> !RoomFor(s, prune, i))
      ensures SparesOthers(s, View(), prune)
    {
      ghost var before := View();
      assert prune[i] in prune && prune[i] !in prune[..i];
      PruneFrame(s, prune[..i]);
      SparedSoFar(s, prune, i);
      PruneJobsNext(s, prune, i);
      hide PruneJobs, Used;
      var id, fails := prune[i], *;
      var job := jobs[id];
      assert job == s.jobs[id];
      if job.tombstone.Some? {
        var actual, _ := StatusLocked();
        if actual + job.tombstone.value + RECORD_MARGIN > limit {
          return Full;
        }
        if faulty && fails {
          return Failed;
        }
        tombstones := tombstones[id := job.tombstone.value];
      }
      var left: nat, partly := *, *;
      if faulty && partly && 0 <= left <= job.files {
        jobs := jobs[id := job.(files := left)];
        return Failed;
      }
      jobs := jobs - {id};
      assert View() == PruneJob(before, id);
      return Done;
    }

    // The second loop: estimate, and for an apply remove, one job after the other.
    method PruneLoop(apply: bool, faulty: bool, prune: seq<Id>, used0: int) returns (outcome: Outcome, jobIds: seq<Id>, used: int, reclaimable: nat)
      requires forall id <- prune :: id in jobs
      requires Distinct(prune)
      modifies this`jobs, this`tombstones
      ensures !apply ==> View() == old(View()) && !outcome.Full?
      ensures !faulty ==> !outcome.Failed?
      ensures outcome.Done? ==> jobIds == prune && used == used0 - PruneGain(old(View()), prune) && reclaimable == FilesOf(old(View()), prune)
      ensures outcome.Done? && apply ==> View() == PruneJobs(old(View()), prune) && RoomForTombstones(old(View()), prune)
      ensures outcome.Full? ==> apply && !RoomForTombstones(old(View()), prune)
      ensures SparesOthers(old(View()), View(), prune)
    {
      ghost var s := View();
      outcome, jobIds, used, reclaimable := Done, [], used0, 0;
      var i := 0;
      hide RoomFor, Used, SparesOthers;
      SparedSoFar(s, prune, 0);
      while i < |prune|
        invariant 0 <= i <= |prune| && jobIds == prune[..i] && outcome.Done?
        invariant View() == (if apply then PruneJobs(s, prune[..i]) else s) && SparesOthers(s, View(), prune)
        invariant used == used0 - PruneGain(s, prune[..i]) && reclaimable == FilesOf(s, prune[..i])
        invariant apply ==> RoomForTombstones(s, prune[..i])
      {
        var id, fails := prune[i], *;
        NextGain(s, prune, i);
        RoomIfSoFar(s, prune, i);
        assert id in prune;
        PrunedJob(s, prune, i);
        hide PruneJobs, RoomForTombstones, PruneGain, FilesOf;
        if faulty && fails {
          outcome := Failed;
          return;
        }
        var job := jobs[id];
        used := used - job.files;
        if job.tombstone.Some? {
          used := used + job.tombstone.value;
        }
        jobIds := jobIds + [id];
        reclaimable := reclaimable + job.files;
        if apply {
          outcome := PruneNext(faulty, prune, i, s);
          if !outcome.Done? {
            return;
          }
        }
        i := i + 1;
      }
      assert prune[..|prune|] == prune;
    }

    // Cut off, the directory may be gone with what is left of it in staging.
    method RemoveArtifact(faulty: bool, a: Id) returns (removed: bool)
      requires a in artifacts
      modifies this`artifacts, this`other
      ensures !faulty ==> removed
      ensures removed ==> artifacts == old(artifacts) - {a} && other == old(other)
      ensures artifacts == old(artifacts) || artifacts == old(artifacts) - {a}
    {
      var moved: bool, fails := *, *;
      removed := !(faulty && fails);
      if removed || moved {
        other := if removed then other else other + artifacts[a].size;
        artifacts := artifacts - {a};
      }
    }

    // The third loop: artifacts in eviction order until used bytes reach the target.
    method EvictLoop(apply: bool, faulty: bool, order: seq<Id>, active: set<Id>, used0: int, target: int, ghost s: Store)
        returns (outcome: Outcome, artifactIds: seq<Id>, reclaimable: nat)
      requires Distinct(order) && artifacts == s.artifacts
      requires forall a <- order :: a in artifacts
      requires forall a :: a in active <==> Active(s, a)
      modifies this`artifacts, this`other
      ensures !apply ==> artifacts == s.artifacts && other == old(other)
      ensures !outcome.Full? && (!faulty ==> outcome.Done?)
      ensures outcome.Done? ==> artifactIds == Evict(s, order, used0 - target) && reclaimable == SizeOf(s, artifactIds)
      ensures outcome.Done? && apply ==> artifacts == RemoveArtifacts(s, artifactIds).artifacts && other == old(other)
      ensures OnlyEvicted(s, artifacts)
    {
      outcome, artifactIds, reclaimable := Done, [], 0;
      var used := used0;
      var i := 0;
      hide Evict, SizeOf, Active, RemoveArtifacts, Evicting, Evictable, Distinct;
      NothingEvicted(s, order, apply, used0 - target);
      while i < |order| && used > target
        invariant 0 <= i <= |order| && other == old(other) && outcome.Done?
        invariant Evicting(s, order, apply, used0 - target, i, used - target, artifactIds, reclaimable, artifacts)
      {
        var a := order[i];
        assert a in order;
        EvictingNext(s, order, apply, used0 - target, i, used - target, artifactIds, reclaimable, artifacts);
        var size := artifacts[a].size;
        var taken;
        outcome, taken := EvictOne(apply, faulty, a, active, s);
        if taken {
          artifactIds, reclaimable, used := artifactIds + [a], reclaimable + size, used - size;
        }
        if outcome.Failed? {
          return;
        }
        i := i + 1;
      }
      EvictingEnds(s, order, apply, used0 - target, i, used - target, artifactIds, reclaimable, artifacts);
    }

    // One artifact in eviction order: passed over, or listed and for an apply removed.
    method EvictOne(apply: bool, faulty: bool, a: Id, active: set<Id>, ghost s: Store) returns (outcome: Outcome, taken: bool)
      requires a in s.artifacts && a in artifacts && artifacts[a] == s.artifacts[a]
      requires forall x :: x in active <==> Active(s, x)
      modifies this`artifacts, this`other
      ensures !outcome.Full? && (!faulty ==> outcome.Done?)
      ensures outcome.Done? ==> (taken <==> Evictable(s, a)) && other == old(other)
      ensures taken ==> Evictable(s, a)
      ensures outcome.Done? ==> artifacts == if apply && taken then old(artifacts) - {a} else old(artifacts)
      ensures artifacts == old(artifacts) || (apply && taken && artifacts == old(artifacts) - {a})
      ensures !apply ==> other == old(other)
    {
      var fails := *;
      if faulty && fails {
        return Failed, false;
      }
      if a in active || !artifacts[a].safe {
        return Done, false;
      }
      if apply {
        var removed := RemoveArtifact(faulty, a);
        return if removed then Done else Failed, true;
      }
      return Done, true;
    }

    // What to prune, and the artifacts in eviction order with the protected ones.
    method Arrange() returns (prune: seq<Id>, order: seq<Id>, active: set<Id>, ranks: map<Id, Rank>)
      ensures IsPruneList(jobs, prune)
      ensures IsRanking(View(), ranks) && Lists(order, artifacts.Keys, ArtifactOrder(ranks))
      ensures forall a :: a in active <==> Active(View(), a)
    {
      hide Keeps, Active;
      var completedSet, lastUsed;
      completedSet, active, lastUsed := Classify();
      JobOrderIsStrict(jobs);
      var completed := Sort(completedSet, JobOrder(jobs));
      PruneListIsTail(jobs, completed);
      prune := if |completed| > COMPLETED_LIMIT then completed[COMPLETED_LIMIT..] else [];
      FirstAreReferenced(View(), completed);
      var referenced := set i | 0 <= i < |completed| && i < COMPLETED_LIMIT :: jobs[completed[i]].artifact;
      ranks := map a <- artifacts :: if a in referenced then Rank(true, LastUse(lastUsed, a)) else Rank(false, artifacts[a].imported);
      hide IsPruneList, Referenced, Sorted, IsLastUsed;
      ArtifactOrderIsStrict(ranks);
      hide IsRanking, ArtifactBefore;
      order := Sort(artifacts.Keys, ArtifactOrder(ranks));
      RanksAreRight(View(), referenced, lastUsed, ranks);
    }

    // `faulty`: reading sizes and lists, writing tombstones and removing files may fail.
    method CleanupLocked(apply: bool, faulty: bool, need: int) returns (outcome: Outcome, jobIds: seq<Id>, artifactIds: seq<Id>, reclaimable: nat)
      modifies this
      ensures !apply ==> View() == old(View()) && !outcome.Full?
      ensures !faulty ==> !outcome.Failed?
      ensures outcome.Done? ==> IsPruneList(old(jobs), jobIds) && reclaimable == FilesOf(old(View()), jobIds) + SizeOf(old(View()), artifactIds)
      ensures outcome.Done? && !apply ==> Selects(old(View()), PreviewExcess(old(View()), jobIds, need), artifactIds)
      ensures outcome.Done? && apply ==> Selects(old(View()), ApplyExcess(old(View()), jobIds, need), artifactIds)
      ensures outcome.Done? && apply ==> View() == RemoveArtifacts(PruneJobs(old(View()), jobIds), artifactIds)
      ensures outcome.Done? && apply ==> RoomForTombstones(old(View()), jobIds)
      ensures outcome.Full? ==> apply && forall ids :: IsPruneList(old(jobs), ids) ==> !RoomForTombstones(old(View()), ids)
      ensures Spares(old(View()), View())
    {
      ghost var s := View();
      hide Used, Reserved, IsPruneList, IsRanking, Lists, Active, Selects, RoomForTombstones, Spares, SparesOthers;
      hide PruneJobs, Evict, PruneGain, FilesOf, SizeOf;
      artifactIds := [];
      var unreadable := *;
      if faulty && unreadable {
        SparesItself(s);
        return Failed, [], [], 0;
      }
      var used, reserved := StatusLocked();
      var prune, order, active, ranks := Arrange();
      PruneListFacts(jobs, prune);
      OrderFacts(order, artifacts.Keys, ranks);
      var freed: nat;
      outcome, jobIds, used, freed := PruneLoop(apply, faulty, prune, used);
      ghost var pruned := View();
      SparesAfterPrune(s, pruned, prune);
      if !outcome.Done? {
        forall ids | IsPruneList(s.jobs, ids) ensures ids == prune {
          PruneListIsUnique(s.jobs, ids, prune);
        }
        reclaimable := 0;
        return;
      }
      var target := limit - reserved - need;
      if apply {
        used, reserved := StatusLocked();
        target := limit - reserved - need;
      }
      assert artifacts == s.artifacts && pruned.limit == s.limit by {
        PrunedKeepsArtifacts(s, pruned, prune);
      }
      outcome, artifactIds, reclaimable := EvictLoop(apply, faulty, order, active, used, target, s);
      SparesAfterEviction(s, pruned, View());
      reclaimable := reclaimable + freed;
      if outcome.Done? {
        SelectedBy(s, used - target, ranks, order, artifactIds);
      }
    }

    // A preview followed by an apply with nothing in between, on released reservations: if the apply
    // succeeds, it removed what the preview listed; and it succeeds, unless the disk is faulty or a
    // tombstone has no room.
    method PreviewThenApply(faulty: bool, need: int) returns (outcome: Outcome, previewed: (seq<Id>, seq<Id>), applied: (seq<Id>, seq<Id>))
      requires forall id <- jobs :: jobs[id].terminal ==> id !in held && id !in tombstones
      modifies this
      ensures outcome.Done? ==> applied == previewed
      ensures !faulty && (exists ids :: IsPruneList(old(jobs), ids) && RoomForTombstones(old(View()), ids)) ==> outcome.Done?
      ensures outcome.Done? ==> forall id :: id in jobs <==> Keeps(old(jobs), id)
    {
      ghost var s := View();
      hide Used, Reserved, Keeps, Selects, IsPruneList, Spares;
      var jobIds, artifactIds, reclaimable;
      outcome, jobIds, artifactIds, reclaimable := CleanupLocked(false, faulty, need);
      previewed := (jobIds, artifactIds);
      if !outcome.Done? {
        applied := ([], []);
        return;
      }
      outcome, jobIds, artifactIds, reclaimable := CleanupLocked(true, faulty, need);
      applied := (jobIds, artifactIds);
      if outcome.Done? {
        PrunedAreTerminal(s.jobs, jobIds);
        assert Quiescent(s, jobIds);
        QuiescentDriftsNot(s, jobIds);
        PreviewAgreesWithApply(s, need, previewed.0, previewed.1, jobIds, artifactIds);
        AppliedSelection(s, need, jobIds, artifactIds);
      }
    }
  }

  lemma PrunedAreTerminal(jobs: map<Id, Job>, prune: seq<Id>)
    requires IsPruneList(jobs, prune)
    ensures forall id <- prune :: id in jobs && jobs[id].terminal
  {
  }

  lemma PruneListFacts(jobs: map<Id, Job>, prune: seq<Id>)
    requires IsPruneList(jobs, prune)
    ensures Distinct(prune) && forall id <- prune :: id in jobs && !Keeps(jobs, id)
  {
    hide Keeps;
    SortedIsDistinct(prune, jobs);
  }

  lemma OrderFacts(order: seq<Id>, items: set<Id>, ranks: map<Id, Rank>)
    requires Lists(order, items, ArtifactOrder(ranks))
    ensures Distinct(order) && forall a <- order :: a in items
  {
    ArtifactOrderIsStrict(ranks);
  }

  lemma PrunedKeepsArtifacts(s: Store, v: Store, prune: seq<Id>)
    requires SparesOthers(s, v, prune)
    ensures v.artifacts == s.artifacts && v.limit == s.limit
  {
  }

  lemma RanksAreRight(s: Store, referenced: set<Id>, lastUsed: map<Id, nat>, ranks: map<Id, Rank>)
    requires forall a :: a in referenced <==> Referenced(s, a)
    requires forall a :: IsLastUsed(s, a, LastUse(lastUsed, a))
    requires ranks == map a <- s.artifacts :: if a in referenced then Rank(true, LastUse(lastUsed, a)) else Rank(false, s.artifacts[a].imported)
    ensures IsRanking(s, ranks)
  {
    hide Referenced, IsLastUsed;
  }

  lemma FirstAreReferenced(s: Store, completed: seq<Id>)
    requires Lists(completed, Completed(s.jobs), JobOrder(s.jobs))
    ensures forall i | 0 <= i < |completed| :: completed[i] in s.jobs
    ensures var first := set i | 0 <= i < |completed| && i < COMPLETED_LIMIT :: s.jobs[completed[i]].artifact;
      forall a :: a in first <==> Referenced(s, a)
  {
    assert forall i | 0 <= i < |completed| :: completed[i] in completed;
    hide Keeps;
    forall i | 0 <= i < |completed| ensures Keeps(s.jobs, completed[i]) <==> i < COMPLETED_LIMIT {
      KeptAreFirst(s.jobs, completed, i);
    }
    forall id | id in s.jobs && s.jobs[id].terminal ensures id in completed {
      assert id in Completed(s.jobs);
    }
  }

  lemma SelectedBy(s: Store, excess: int, ranks: map<Id, Rank>, order: seq<Id>, artifactIds: seq<Id>)
    requires IsRanking(s, ranks) && Lists(order, s.artifacts.Keys, ArtifactOrder(ranks))
    requires artifactIds == Evict(s, order, excess)
    ensures Selects(s, excess, artifactIds)
  {
  }

  lemma SparesItself(s: Store)
    ensures Spares(s, s)
  {
    hide Evictable;
  }

  lemma SparesAfterPrune(s: Store, v: Store, prune: seq<Id>)
    requires SparesOthers(s, v, prune) && IsPruneList(s.jobs, prune)
    ensures Spares(s, v)
  {
    hide Keeps;
  }

  lemma SparesAfterEviction(s: Store, pruned: Store, v: Store)
    requires Spares(s, pruned) && pruned.artifacts == s.artifacts
    requires v.(artifacts := s.artifacts, other := 0) == pruned.(artifacts := s.artifacts, other := 0)
    requires forall a <- v.artifacts :: a in s.artifacts && v.artifacts[a] == s.artifacts[a]
    requires forall a <- s.artifacts :: a in v.artifacts || Evictable(s, a)
    ensures Spares(s, v)
  {
    hide Keeps, Evictable;
  }

  datatype Outcome = Done | Full | Failed

  function FilesOf(s: Store, ids: seq<Id>): nat {
    if ids == [] then 0
    else FilesOf(s, ids[..|ids| - 1]) + if ids[|ids| - 1] in s.jobs then s.jobs[ids[|ids| - 1]].files else 0
  }

  // Every tombstone fits, with a margin, at the moment it is written.
  ghost predicate RoomForTombstones(s: Store, ids: seq<Id>) {
    forall i | 0 <= i < |ids| :: RoomFor(s, ids, i)
  }

  ghost predicate RoomFor(s: Store, ids: seq<Id>, i: nat)
    requires i < |ids|
  {
    ids[i] in s.jobs && s.jobs[ids[i]].tombstone.Some? ==> Used(PruneJobs(s, ids[..i])) + s.jobs[ids[i]].tombstone.value + RECORD_MARGIN <= s.limit
  }

  // Whatever happened, other jobs than these are as they were, and so is everything but jobs and tombstones.
  ghost predicate SparesOthers(s: Store, v: Store, prune: seq<Id>) {
    && v == s.(jobs := v.jobs, tombstones := v.tombstones)
    && forall id <- s.jobs :: id !in prune ==> id in v.jobs && v.jobs[id] == s.jobs[id]
  }

  ghost predicate Spares(s: Store, v: Store) {
    && v == s.(jobs := v.jobs, tombstones := v.tombstones, artifacts := v.artifacts, other := v.other)
    && (forall id <- s.jobs :: Keeps(s.jobs, id) ==> id in v.jobs && v.jobs[id] == s.jobs[id])
    && (forall a <- v.artifacts :: a in s.artifacts && v.artifacts[a] == s.artifacts[a])
    && (forall a <- s.artifacts :: a in v.artifacts || Evictable(s, a))
  }

  // The first `i` artifacts have been looked at.
  ghost predicate Evicting(s: Store, order: seq<Id>, apply: bool, excess0: int, i: nat, excess: int, artifactIds: seq<Id>, reclaimable: int, artifacts: map<Id, Artifact>)
    requires i <= |order|
  {
    && Gone(s, artifactIds, order[..i])
    && artifactIds + Evict(s, order[i..], excess) == Evict(s, order, excess0)
    && reclaimable == SizeOf(s, artifactIds)
    && artifacts == if apply then RemoveArtifacts(s, artifactIds).artifacts else s.artifacts
  }

  lemma NothingEvicted(s: Store, order: seq<Id>, apply: bool, excess: int)
    ensures Evicting(s, order, apply, excess, 0, excess, [], 0, s.artifacts)
  {
    assert order[0..] == order;
  }

  // One step, taken or not; also when the removal fails, nothing but evictable artifacts is gone.
  lemma EvictingNext(s: Store, order: seq<Id>, apply: bool, excess0: int, i: nat, excess: int, artifactIds: seq<Id>, reclaimable: int, artifacts: map<Id, Artifact>)
    requires i < |order| && excess > 0 && Distinct(order) && order[i] in s.artifacts
    requires Evicting(s, order, apply, excess0, i, excess, artifactIds, reclaimable, artifacts)
    ensures var a := order[i];
      && a in artifacts && artifacts[a] == s.artifacts[a]
      && (!Evictable(s, a) ==> Evicting(s, order, apply, excess0, i + 1, excess, artifactIds, reclaimable, artifacts))
      && (Evictable(s, a) ==> Evicting(s, order, apply, excess0, i + 1, excess - s.artifacts[a].size, artifactIds + [a], reclaimable + s.artifacts[a].size,
                                       if apply then artifacts - {a} else artifacts))
      && OnlyEvicted(s, artifacts) && (Evictable(s, a) ==> OnlyEvicted(s, artifacts - {a}))
  {
    hide Evict, SizeOf, Evictable, RemoveArtifacts, Gone, Distinct;
    EvictNext(s, order, i, excess);
    GoneNext(s, artifactIds, order, i);
    SizeOfNext(s, artifactIds, order[i]);
    OnlyEvictableGone(s, artifactIds, order[..i]);
    assert OnlyEvicted(s, artifacts);
  }

  ghost predicate OnlyEvicted(s: Store, artifacts: map<Id, Artifact>) {
    && (forall a <- artifacts :: a in s.artifacts && artifacts[a] == s.artifacts[a])
    && (forall a <- s.artifacts :: a in artifacts || Evictable(s, a))
  }

  lemma EvictingEnds(s: Store, order: seq<Id>, apply: bool, excess0: int, i: nat, excess: int, artifactIds: seq<Id>, reclaimable: int, artifacts: map<Id, Artifact>)
    requires i <= |order| && (i == |order| || excess <= 0)
    requires Evicting(s, order, apply, excess0, i, excess, artifactIds, reclaimable, artifacts)
    ensures artifactIds == Evict(s, order, excess0) && reclaimable == SizeOf(s, artifactIds)
    ensures artifacts == if apply then RemoveArtifacts(s, artifactIds).artifacts else s.artifacts
    ensures OnlyEvicted(s, artifacts)
  {
    hide Evict, SizeOf, Evictable, RemoveArtifacts, Gone;
    NothingMore(s, order[i..], excess);
    OnlyEvictableGone(s, artifactIds, order[..i]);
  }

  lemma NothingMore(s: Store, order: seq<Id>, excess: int)
    requires order == [] || excess <= 0
    ensures Evict(s, order, excess) == []
  {
  }

  // The artifacts taken so far are evictable ones among those passed.
  ghost predicate Gone(s: Store, artifactIds: seq<Id>, passed: seq<Id>) {
    forall a <- artifactIds :: a in passed && Evictable(s, a)
  }

  lemma GoneNext(s: Store, artifactIds: seq<Id>, order: seq<Id>, i: nat)
    requires i < |order| && Distinct(order) && order[i] in s.artifacts && Gone(s, artifactIds, order[..i])
    ensures Gone(s, artifactIds, order[..i + 1]) && (Evictable(s, order[i]) ==> Gone(s, artifactIds + [order[i]], order[..i + 1]))
    ensures order[i] in RemoveArtifacts(s, artifactIds).artifacts
    ensures RemoveArtifacts(s, artifactIds).artifacts[order[i]] == s.artifacts[order[i]]
    ensures RemoveArtifacts(s, artifactIds + [order[i]]).artifacts == RemoveArtifacts(s, artifactIds).artifacts - {order[i]}
  {
    hide Evictable;
    assert order[..i + 1] == order[..i] + [order[i]];
    assert order[i] !in order[..i];
  }

  lemma OnlyEvictableGone(s: Store, artifactIds: seq<Id>, passed: seq<Id>)
    requires Gone(s, artifactIds, passed)
    ensures forall a <- RemoveArtifacts(s, artifactIds).artifacts :: a in s.artifacts && RemoveArtifacts(s, artifactIds).artifacts[a] == s.artifacts[a]
    ensures forall a <- s.artifacts :: a in RemoveArtifacts(s, artifactIds).artifacts || Evictable(s, a)
  {
  }

  lemma EvictNext(s: Store, order: seq<Id>, i: nat, excess: int)
    requires i < |order| && excess > 0
    ensures Evict(s, order[i..], excess) ==
      if Evictable(s, order[i]) then [order[i]] + Evict(s, order[i + 1..], excess - s.artifacts[order[i]].size) else Evict(s, order[i + 1..], excess)
  {
    assert order[i..][1..] == order[i + 1..];
  }

  lemma SizeOfNext(s: Store, ids: seq<Id>, a: Id)
    requires a in s.artifacts
    ensures SizeOf(s, ids + [a]) == SizeOf(s, ids) + s.artifacts[a].size
  {
    if ids != [] {
      SizeOfNext(s, ids[1..], a);
      assert (ids + [a])[1..] == ids[1..] + [a];
    }
  }

  lemma SparedSoFar(s: Store, prune: seq<Id>, i: nat)
    requires i <= |prune|
    ensures SparesOthers(s, PruneJobs(s, prune[..i]), prune)
  {
    PruneFrame(s, prune[..i]);
  }

  lemma PruneJobsNext(s: Store, prune: seq<Id>, i: nat)
    requires i < |prune| && Distinct(prune) && prune[i] in s.jobs
    ensures prune[i] in PruneJobs(s, prune[..i]).jobs && PruneJobs(s, prune[..i + 1]) == PruneJob(PruneJobs(s, prune[..i]), prune[i])
  {
    assert prune[..i + 1][..i] == prune[..i];
    PruneFrame(s, prune[..i]);
  }

  lemma RoomIfSoFar(s: Store, prune: seq<Id>, i: nat)
    requires i < |prune|
    ensures RoomForTombstones(s, prune[..i]) ==> (RoomForTombstones(s, prune[..i + 1]) <==> RoomFor(s, prune, i))
    ensures RoomForTombstones(s, prune) ==> RoomFor(s, prune, i)
  {
    if RoomForTombstones(s, prune[..i]) {
      RoomNext(s, prune, i);
    }
  }

  lemma NextGain(s: Store, prune: seq<Id>, i: nat)
    requires i < |prune| && prune[i] in s.jobs
    ensures prune[..i + 1] == prune[..i] + [prune[i]]
    ensures PruneGain(s, prune[..i + 1]) == PruneGain(s, prune[..i]) + JobGain(s, prune[i])
    ensures FilesOf(s, prune[..i + 1]) == FilesOf(s, prune[..i]) + s.jobs[prune[i]].files
  {
    assert prune[..i + 1][..i] == prune[..i];
  }

  lemma PrunedJob(s: Store, prune: seq<Id>, i: nat)
    requires i < |prune| && Distinct(prune) && prune[i] in s.jobs
    ensures prune[i] in PruneJobs(s, prune[..i]).jobs && PruneJobs(s, prune[..i]).jobs[prune[i]] == s.jobs[prune[i]]
  {
    PruneFrame(s, prune[..i]);
  }

  lemma RoomForPrefix(s: Store, ids: seq<Id>, i: nat, j: nat)
    requires j < i <= |ids|
    ensures RoomFor(s, ids[..i], j) <==> RoomFor(s, ids, j)
  {
    assert ids[..i][..j] == ids[..j];
  }

  lemma RoomNext(s: Store, prune: seq<Id>, i: nat)
    requires i < |prune| && RoomForTombstones(s, prune[..i])
    ensures RoomForTombstones(s, prune[..i + 1]) <==> RoomFor(s, prune, i)
    ensures RoomForTombstones(s, prune) ==> RoomFor(s, prune, i)
  {
    var shorter, longer := prune[..i], prune[..i + 1];
    forall j | 0 <= j < |longer| ensures RoomFor(s, longer, j) <==> RoomFor(s, prune, j) {
      RoomForPrefix(s, prune, i + 1, j);
    }
    forall j | 0 <= j < |shorter| ensures RoomFor(s, shorter, j) <==> RoomFor(s, prune, j) {
      RoomForPrefix(s, prune, i, j);
    }
    hide RoomFor;
  }

  function LastUse(lastUsed: map<Id, nat>, artifact: Id): nat {
    if artifact in lastUsed then lastUsed[artifact] else 0
  }

  // `lastUsed` is right about the jobs that are not in `rest`.
  ghost predicate Timed(jobs: map<Id, Job>, rest: set<Id>, lastUsed: map<Id, nat>) {
    && (forall id <- jobs :: id !in rest ==> jobs[id].created <= LastUse(lastUsed, jobs[id].artifact))
    && forall a <- lastUsed :: exists id <- jobs :: jobs[id].artifact == a && jobs[id].created == lastUsed[a]
  }

  lemma TimedNext(jobs: map<Id, Job>, rest: set<Id>, lastUsed: map<Id, nat>, id: Id)
    requires Timed(jobs, rest, lastUsed) && id in jobs
    ensures Timed(jobs, rest - {id},
              if jobs[id].created > LastUse(lastUsed, jobs[id].artifact) then lastUsed[jobs[id].artifact := jobs[id].created] else lastUsed)
  {
  }
}
