/**
 A job from its before-boot tasks to its published state, with the TFTP runner as its deployment: what
 "succeeded" means to whoever reads the record.
 */
module JobDelivery {
  import opened Text
  import opened TftpCodec
  import opened TftpServer
  import ArtifactManifest
  import opened OutcomeTasks
  import opened OutcomeRun

  lemma {:induction false} SameSplit(name: Bytes)
    ensures Split<char>(name, '/') == Split<Byte>(name, '/')
  {
    if name != [] {
      SameSplit(name[1..]);
    }
  }

  // The names that the TFTP server opens are exactly the safe paths of manifests, up to 1024 bytes: every
  // file that a manifest may list can be asked for, and no request leaves the root.
  lemma ServedNamesArePaths(name: Bytes, root: seq<string>)
    ensures SafeFilename(name) <==> |name| <= 1024 && ArtifactManifest.SafePath(name)
    ensures SafeFilename(name) ==>
      var target := ArtifactManifest.Resolve(root, Split<char>(name, '/'));
      |target| > |root| && target[..|root|] == root
  {
    SameSplit(name);
    var parts := Split<char>(name, '/');
    assert (forall part <- parts :: SafePart(part)) <==> (forall part <- parts :: ArtifactManifest.PlainPart(part));
    SamePlain(name);
    hide Split;
    if SafeFilename(name) {
      assert ArtifactManifest.SafePath(name);
      ArtifactManifest.SafePathsStayInside(root, name, name);
    }
  }

  lemma SamePlain(name: Bytes)
    ensures (forall i | 0 <= i < |name| :: name[i] != '\\' && name[i] != ':' && name[i] as int >= 0x20 && name[i] as int != 0x7f) <==>
      (forall c: char <- name :: c != '\\' && c != ':' && !ArtifactManifest.Control(c))
  {
    if forall i | 0 <= i < |name| :: name[i] != '\\' && name[i] != ':' && name[i] as int >= 0x20 && name[i] as int != 0x7f {
      forall c: char | c in name ensures c != '\\' && c != ':' && !ArtifactManifest.Control(c) {
        var i :| 0 <= i < |name| && name[i] == c;
      }
    }
    if forall c: char <- name :: c != '\\' && c != ':' && !ArtifactManifest.Control(c) {
      forall i | 0 <= i < |name| ensures name[i] != '\\' && name[i] != ':' && name[i] as int >= 0x20 && name[i] as int != 0x7f {
        assert name[i] in name;
      }
    }
  }

  // The transfers go on beside the before-boot tasks and share nothing with them; their verdict is the
  // runner's error after its tasks.
  method Deploy(registry: Registry, plan: Plan, script: Script, server: Server, requests: seq<Request>, paths: seq<Bytes>, root: Bytes,
                prepared: bool, loaderFails: bool, consumed: nat) returns (run: JobRun)
    requires Acceptable(registry, plan) && server.Valid() && script.after.None?
    modifies server
    ensures server.Valid() && run.state.Some?
    // A job published as succeeded delivered every file under the TFTP root whole, and ran every
    // before-boot and success task once, in plan order, each succeeding.
    ensures run.state == Some(Succeeded) ==>
      && (forall f | root + ['/'] + f in paths :: HasFile(server, f))
      && |run.results| == |plan.beforeBoot| + |plan.onSuccess|
      && forall i | 0 <= i < |run.results| :: run.results[i].state == TaskSucceeded && run.results[i].id == (plan.beforeBoot + plan.onSuccess)[i].id
    // When nothing interferes and no task fails, it succeeds exactly when the files were delivered.
    ensures script.Quiet() && script.before.None? && FirstError(script.bodies, plan.beforeBoot).None? && FirstError(script.bodies, plan.onSuccess).None? ==>
      (run.state == Some(Succeeded) <==> prepared && !loaderFails && AllAnnounced(server, ExpectedFiles(paths, root), consumed))
  {
    var delivered := RunJob(server, requests, paths, root, prepared, loaderFails, consumed);
    run := new JobRun(registry, plan, script.(after := if delivered then None else Some(Failure)));
    hide Acceptable, RecordOf, HasFile, AllAnnounced, ExpectedFiles, FirstError;
    var boot, hooks, early, booted := run.Run();
    if run.state == Some(Succeeded) {
      SuccessRanEverything(plan, run.results);
    }
  }
}
