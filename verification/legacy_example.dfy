/**
 A legacy state with one job too many: 31 finished jobs on one artifact, created at times 0 to 30.
 */
module LegacyExample {
  import opened Text
  import opened Sets
  import opened Ordering
  import StorageBudget
  import opened LegacyPlan

  function KeyOf(i: nat): Key
    requires i < 52
  {
    if i < 26 then [('A' as int + i) as char] else [('a' as int + i - 26) as char]
  }

  function Keys(n: nat): set<Key>
    requires n <= 52
  {
    if n == 0 then {} else Keys(n - 1) + {KeyOf(n - 1)}
  }

  function OldStore(n: nat, a: Key): Files
    requires n <= 52
  {
    if n == 0 then map[ArtifactPath(a) := Entry(0, 0, 0, ArtifactRecord(a, true))]
    else OldStore(n - 1, a)[JobPath(KeyOf(n - 1)) := Entry(0, 0, 0, JobRecord(KeyOf(n - 1), true, Some(n - 1), a, ""))]
  }

  lemma KeysDiffer(i: nat, j: nat)
    requires i < 52 && j < 52 && i != j
    ensures KeyOf(i) != KeyOf(j) && JobPath(KeyOf(i)) != JobPath(KeyOf(j))
  {
    assert KeyOf(i)[0] != KeyOf(j)[0];
    assert JobPath(KeyOf(i))[1] == KeyOf(i) && JobPath(KeyOf(j))[1] == KeyOf(j);
  }

  lemma {:induction false} KeysAre(n: nat)
    requires n <= 52
    ensures |Keys(n)| == n
    ensures forall k <- Keys(n) :: exists i: nat | i < n :: k == KeyOf(i)
    ensures forall i: nat | i < n :: KeyOf(i) in Keys(n)
  {
    if n > 0 {
      KeysAre(n - 1);
      forall i: nat | i < n - 1 ensures KeyOf(i) != KeyOf(n - 1) {
        KeysDiffer(i, n - 1);
      }
      hide KeyOf;
    }
  }

  lemma {:induction false} RecordIs(n: nat, a: Key, i: nat)
    requires i < n <= 52
    ensures JobPath(KeyOf(i)) in OldStore(n, a) && OldStore(n, a)[JobPath(KeyOf(i))] == Entry(0, 0, 0, JobRecord(KeyOf(i), true, Some(i), a, ""))
    decreases n
  {
    if i < n - 1 {
      RecordIs(n - 1, a, i);
      KeysDiffer(i, n - 1);
    }
    hide KeyOf, JobPath, ArtifactPath;
  }

  lemma {:induction false} PathsAre(n: nat, a: Key)
    requires n <= 52
    ensures ArtifactPath(a) in OldStore(n, a) && OldStore(n, a)[ArtifactPath(a)] == Entry(0, 0, 0, ArtifactRecord(a, true))
    ensures forall p <- OldStore(n, a) :: OldStore(n, a)[p].size == 0 && (p == ArtifactPath(a) || exists k <- Keys(n) :: p == JobPath(k))
  {
    if n > 0 {
      PathsAre(n - 1, a);
      assert |JobPath(KeyOf(n - 1))| == 3 && |ArtifactPath(a)| == 4;
      hide KeyOf, JobPath, ArtifactPath;
    }
  }

  predicate IsDigest(a: Key) {
    |a| == 64 && HexDigits(a)
  }

  lemma PathKinds(k: Key, a: Key)
    ensures var p := JobPath(k); InJobs(p) && !InArtifacts(p) && !Stray(p) && |p| == 3 && p[1] == k
    ensures var p := ArtifactPath(a); InArtifacts(p) && !InJobs(p) && !Stray(p) && |p| == 4 && p[2] == a
  {
    assert |"jobs"| == 4 && |"store"| == 5 && |"artifacts"| == 9 && |"tmp"| == 3;
  }

  lemma OldStoreKeys(n: nat, a: Key)
    requires n <= 52
    ensures JobKeys(OldStore(n, a)) == Keys(n) && ArtifactKeys(OldStore(n, a)) == {a}
    ensures forall p <- OldStore(n, a) :: !Stray(p)
  {
    PathsAre(n, a);
    KeysAre(n);
    var files := OldStore(n, a);
    hide OldStore, Keys, KeyOf, InJobs, InArtifacts, Stray, JobPath, ArtifactPath;
    forall k | k in Keys(n) ensures JobPath(k) in files {
      var i: nat :| i < n && k == KeyOf(i);
      RecordIs(n, a, i);
    }
    KeysOfPaths(files, Keys(n), a);
  }

  lemma KeysOfPaths(files: Files, keys: set<Key>, a: Key)
    requires ArtifactPath(a) in files && forall k <- keys :: JobPath(k) in files
    requires forall p <- files :: p == ArtifactPath(a) || exists k <- keys :: p == JobPath(k)
    ensures JobKeys(files) == keys && ArtifactKeys(files) == {a} && forall p <- files :: !Stray(p)
  {
    hide InJobs, InArtifacts, Stray, JobPath, ArtifactPath;
    forall k ensures InJobs(JobPath(k)) && !InArtifacts(JobPath(k)) && !Stray(JobPath(k)) && |JobPath(k)| == 3 && JobPath(k)[1] == k {
      PathKinds(k, a);
    }
    PathKinds("", a);
  }

  lemma OldStoreIsWellFormed(n: nat, a: Key)
    requires n <= 52 && IsDigest(a)
    ensures WellFormed(OldStore(n, a))
  {
    hide OldStore, Keys, JobKeys, ArtifactKeys, Stray, KeyOf, GoodJob, GoodArtifact;
    OldStoreKeys(n, a);
    KeysAre(n);
    var files := OldStore(n, a);
    forall k | k in Keys(n) ensures GoodJob(files, k) {
      var i: nat :| i < n && k == KeyOf(i);
      OldJobIsGood(n, a, i);
    }
    OldArtifactIsGood(n, a);
  }

  lemma OldJobIsGood(n: nat, a: Key, i: nat)
    requires i < n <= 52
    ensures GoodJob(OldStore(n, a), KeyOf(i))
  {
    RecordIs(n, a, i);
    OldStoreKeys(n, a);
    assert ValidKey(KeyOf(i));
    hide OldStore, JobKeys, ArtifactKeys, KeyOf, JobPath;
  }

  lemma OldArtifactIsGood(n: nat, a: Key)
    requires n <= 52 && IsDigest(a)
    ensures GoodArtifact(OldStore(n, a), a)
  {
    PathsAre(n, a);
    hide OldStore;
  }

  // Its plan removes the oldest job, and no other.
  lemma OldestOfManyIsRemoved(a: Key)
    requires IsDigest(a)
    ensures Plannable(OldStore(31, a)) && |JobKeys(OldStore(31, a))| == 31 && KeepJobs(OldStore(31, a)) == JobKeys(OldStore(31, a)) - {KeyOf(0)}
    ensures forall i: nat | i < 31 :: HasJob(OldStore(31, a), KeyOf(i)) && JobOf(OldStore(31, a), KeyOf(i)).created == Some(i)
  {
    ManyJobs(31, OldStore(31, a), a);
  }

  lemma ManyJobs(n: nat, files: Files, a: Key)
    requires IsDigest(a) && n == 31 && files == OldStore(n, a)
    ensures Plannable(files) && |JobKeys(files)| == n && KeepJobs(files) == JobKeys(files) - {KeyOf(0)}
    ensures forall i: nat | i < n :: HasJob(files, KeyOf(i)) && JobOf(files, KeyOf(i)).created == Some(i)
  {
    hide OldStore, Keys, KeyOf, WellFormed, Newer, KeepJobs;
    OldStoreKeys(n, a);
    OldStoreIsWellFormed(n, a);
    KeysAre(n);
    PathsAre(n, a);
    forall i: nat | i < n ensures HasJob(files, KeyOf(i)) && JobOf(files, KeyOf(i)).created == Some(i) && JobOf(files, KeyOf(i)).requestId == "" {
      RecordIs(n, a, i);
    }
    OnlyOldestGoes(n, files);
    NothingWeighs(files - Removal(files, KeepJobs(files), ArtifactsOf(files, KeepJobs(files))));
  }

  lemma OnlyOldestGoes(n: nat, files: Files)
    requires n == 31 && JobKeys(files) == Keys(n) && |Keys(n)| == n
    requires forall k <- Keys(n) :: exists i: nat | i < n :: k == KeyOf(i)
    requires forall i: nat | i < n :: KeyOf(i) in Keys(n) && HasJob(files, KeyOf(i)) && JobOf(files, KeyOf(i)).created == Some(i)
    ensures KeepJobs(files) == JobKeys(files) - {KeyOf(0)}
  {
    hide Keys, KeyOf, JobKeys;
    var keys, before := JobKeys(files), NewestFirst(files);
    forall k | k in keys ensures k in KeepJobs(files) <==> k != KeyOf(0) {
      var i: nat :| i < n && k == KeyOf(i);
      assert Created(files, k) == i;
      forall x | x in keys && x != k ensures before(x, k) <== i == 0 {
        var j: nat :| j < n && x == KeyOf(j);
      }
      if i == 0 {
        NewestFirstIsStrict(files);
        assert Ahead(keys, before, k) == keys - {k};
      } else {
        assert !before(KeyOf(0), k);
        NewestFirstIsStrict(files);
        SubsetBySize(Ahead(keys, before, k), keys - {k} - {KeyOf(0)});
      }
    }
  }

  lemma NothingWeighs(files: Files)
    requires forall p <- files :: files[p].size == 0
    ensures StorageBudget.Total(Sizes(files)) == 0
  {
    ZeroTotal(Sizes(files));
  }

  lemma {:induction false} ZeroTotal(m: map<Path, int>)
    requires forall p <- m :: m[p] == 0
    ensures StorageBudget.Total(m) == 0
    decreases |m|
  {
    if m != map[] {
      var p :| p in m;
      StorageBudget.TotalWithout(m, p);
      ZeroTotal(m - {p});
    }
  }
}
