/**
 Applying and resuming the legacy cleanup (packaging/migration/cleanup.py, validate_remaining and
 execute): a checkpointed, irreversible deletion that may be cut off after any durable step.
 */
module LegacyCleanup {
  import opened Text
  import opened Sets
  import opened LegacyPlan

  datatype Phase = Preview | Stopping | BackedUp | Deleting | Verified | Complete

  // An interrupted attempt was cut off by a crash or by a failing system command.
  datatype Outcome = Done | Refused | Interrupted

  predicate IsMetadata(p: Path) {
    || p == ["api-token"]
    || (|p| == 3 && p[0] == "jobs" && p[2] == "job.json")
    || (|p| == 4 && p[0] == "store" && p[1] == "artifacts" && p[3] == "artifact.json")
  }

  function MetadataOf(files: Files): Files {
    map p <- files | IsMetadata(p) :: files[p]
  }

  // What the backup holds before anything is deleted: the record of every job and artifact that the
  // plan removes, as it was.
  lemma RemovedRecordsAreBackedUp(plan: Plan)
    requires Plannable(plan.files) && IsPlan(plan.files, plan)
    ensures forall k <- plan.removeJobs :: JobPath(k) in MetadataOf(plan.files) && MetadataOf(plan.files)[JobPath(k)] == plan.files[JobPath(k)]
    ensures forall k <- plan.removeArtifacts :: ArtifactPath(k) in MetadataOf(plan.files) && MetadataOf(plan.files)[ArtifactPath(k)] == plan.files[ArtifactPath(k)]
    ensures ["api-token"] in plan.files ==> ["api-token"] in MetadataOf(plan.files)
  {
    forall k | k in plan.removeJobs ensures JobPath(k) in plan.files && IsMetadata(JobPath(k)) {
      assert GoodJob(plan.files, k);
    }
    forall k | k in plan.removeArtifacts ensures ArtifactPath(k) in plan.files && IsMetadata(ArtifactPath(k)) {
      assert GoodArtifact(plan.files, k);
    }
    hide Plannable, IsPlan;
  }

  // validate_remaining: nothing is new or changed, and nothing is missing but approved files.
  predicate Remaining(plan: Plan, current: Files) {
    && (forall p <- current :: p in plan.files && current[p] == plan.files[p])
    && (forall p <- plan.files :: p in current || p in plan.remove)
  }

  // That is: the planned files without some of the approved ones.
  lemma RemainingIsPlanLessRemovals(plan: Plan, current: Files)
    ensures Remaining(plan, current) <==> exists gone: set<Path> :: gone <= plan.remove && current == plan.files - gone
  {
    if Remaining(plan, current) {
      var gone := set p | p in plan.files && p !in current;
      assert gone <= plan.remove;
      assert current == plan.files - gone;
    }
  }

  class Cleanup {
    const plan: Plan
    // Whether the archives of the kept artifacts verify against their manifests.
    const sound: bool
    var files: Files
    var phase: Phase
    var backup: Files
    // Files this cleanup has deleted, and whether nobody else has changed any.
    ghost var deleted: set<Path>
    ghost var steady: bool

    // preview
    constructor (plan: Plan, sound: bool)
      requires Plannable(plan.files) && IsPlan(plan.files, plan)
      ensures Valid() && steady && phase == Preview && files == plan.files && deleted == {}
      ensures this.plan == plan && this.sound == sound
    {
      this.plan, this.sound, files, phase, backup, deleted, steady := plan, sound, plan.files, Preview, map[], {}, true;
    }

    // Holds whenever no step is half done: at every crash point.
    ghost predicate Valid()
      reads this
    {
      && Plannable(plan.files) && IsPlan(plan.files, plan)
      && deleted <= plan.remove && deleted !! files.Keys
      && (deleted != {} ==> phase.Deleting? || phase.Verified? || phase.Complete?)
      && backup.Keys <= MetadataOf(plan.files).Keys
      && (phase.BackedUp? || phase.Deleting? || phase.Verified? || phase.Complete? ==> backup == MetadataOf(plan.files))
      && (steady ==> files == plan.files - deleted)
      && (steady && (phase.Verified? || phase.Complete?) ==> deleted == plan.remove)
    }

    predicate Permits(resume: bool)
      reads this
    {
      if resume then phase.Stopping? || phase.BackedUp? || phase.Deleting? || phase.Verified? else phase.Preview?
    }

    // When an attempt that finds the state `found` once the services are down may go on.
    ghost predicate Acceptable(resume: bool, found: Files)
      reads this
    {
      && Permits(resume)
      && (!resume ==> Plannable(files) && IsPlan(files, plan))
      && Remaining(plan, found) && (phase.Preview? || phase.Stopping? ==> found == plan.files)
      && sound
    }

    // An atomic, durable checkpoint.  `cut`: the attempt may be cut off here, by a crash or a failing
    // command, and then the checkpoint may have landed or not.
    method Save(next: Phase, cut: bool) returns (alive: bool)
      modifies this`phase
      ensures (alive ==> phase == next) && (!cut ==> alive)
      ensures phase == next || phase == old(phase)
    {
      var landed: bool, dies := *, *;
      alive := !(cut && dies);
      if alive || landed {
        phase := next;
      }
    }

    // Copy the records and the token, file by file.
    method BackUp(cut: bool) returns (alive: bool)
      requires Valid() && files == plan.files && phase.Stopping?
      modifies this`backup
      ensures Valid() && (alive ==> backup == MetadataOf(plan.files)) && (!cut ==> alive)
    {
      hide Plannable, IsPlan;
      var rest := plan.files.Keys;
      while rest != {}
        invariant rest <= plan.files.Keys && Valid()
        invariant forall p <- plan.files :: p in rest || !IsMetadata(p) || (p in backup && backup[p] == plan.files[p])
        decreases |rest|
      {
        var p := AnyOf(rest);
        var dies := *;
        if cut && dies {
          return false;
        }
        if IsMetadata(p) {
          backup := backup[p := files[p]];
        }
        rest := rest - {p};
      }
      alive := true;
    }

    // Unlink one approved file and sync its directory; cut off in between, the file may be back.
    method Unlink(p: Path, cut: bool) returns (alive: bool)
      requires Valid() && phase.Deleting? && Remaining(plan, files) && p in plan.remove && p in files
      modifies this`files, this`deleted
      ensures Valid() && Remaining(plan, files)
      ensures (alive ==> p !in files) && (!cut ==> alive)
      ensures (files == old(files) - {p} && deleted == old(deleted) + {p}) || (files == old(files) && deleted == old(deleted))
    {
      hide Plannable, IsPlan, MetadataOf;
      assert files[p] == plan.files[p];
      var back: bool, dies := *, *;
      alive := !(cut && dies);
      if alive || !back {
        files, deleted := files - {p}, deleted + {p};
      }
    }

    // Delete what is left of the approved files.
    method Delete(cut: bool) returns (alive: bool)
      requires Valid() && phase.Deleting? && Remaining(plan, files)
      modifies this`files, this`deleted
      ensures Valid() && Remaining(plan, files)
      ensures old(deleted) <= deleted && files == old(files) - (deleted - old(deleted))
      ensures (alive ==> files == plan.files - plan.remove) && (!cut ==> alive)
    {
      hide Cleanup.Valid, Plannable, IsPlan, MetadataOf;
      ghost var files0, deleted0 := files, deleted;
      var rest := plan.remove;
      while rest != {}
        invariant rest <= plan.remove && Valid() && Remaining(plan, files)
        invariant Shrunk(files0, deleted0, files, deleted)
        invariant forall p <- plan.remove :: p in rest || p !in files
        decreases |rest|
      {
        var p := AnyOf(rest);
        hide Remaining, Shrunk;
        MissingIsMissing(this);
        if p in files {
          ShrunkMore(files0, deleted0, files, deleted, p);
          alive := Unlink(p, cut);
          if !alive {
            assert Shrunk(files0, deleted0, files, deleted);
            ShrunkIs(files0, deleted0, files, deleted);
            return;
          }
        }
        rest := rest - {p};
      }
      alive := true;
      assert files == plan.files - plan.remove;
    }

    // apply or resume.  `written` is what others made of the state before the services were down,
    // if they changed it.  An attempt that nothing cuts off is done, or was not acceptable.
    method Execute(resume: bool, written: Option<Files>, cut: bool) returns (outcome: Outcome)
      requires Valid()
      modifies this
      ensures Valid()
      ensures written.None? ==> steady == old(steady) && old(deleted) <= deleted && files == old(files) - (deleted - old(deleted))
      ensures outcome.Refused? ==> !old(Acceptable(resume, Found(files, written))) && (written.None? ==> files == old(files))
      ensures outcome.Done? ==> old(Acceptable(resume, Found(files, written)))
      ensures !cut ==> (outcome.Done? <==> old(Acceptable(resume, Found(files, written))))
      ensures outcome.Done? ==> phase == Complete && files == plan.files - plan.remove && RetentionReady(files)
    {
      hide Plannable, IsPlan, Remaining, RetentionReady, MetadataOf;
      outcome := Interrupted;
      var alive: bool;
      if !Permits(resume) {
        return Refused;
      }
      if !resume {
        var again := MakePlan(files);
        if again.None? || again.value != plan {
          PlanIsUnique(files, plan);
          return Refused;
        }
        alive := Save(Stopping, cut);
        if !alive {
          return;
        }
      }
      if written.Some? {
        steady, files := steady && written.value == files, written.value;
        deleted := deleted - files.Keys;
      }
      var unstopped := *;
      if cut && unstopped {
        return;
      }
      var ok := ValidateRemaining();
      if !ok || (phase.Stopping? && files != plan.files) {
        return Refused;
      }
      if phase.Stopping? {
        alive := BackUp(cut);
        if !alive {
          return;
        }
        alive := Save(BackedUp, cut);
        if !alive {
          return;
        }
      }
      if !sound {
        return Refused;
      }
      outcome := Finish(cut);
    }

    method ValidateRemaining() returns (ok: bool)
      ensures ok <==> Remaining(plan, files)
    {
      ok := (forall p <- files :: p in plan.files && files[p] == plan.files[p]) && (forall p <- plan.files :: p in files || p in plan.remove);
    }

    // From the first irreversible step on.
    method Finish(cut: bool) returns (outcome: Outcome)
      requires Valid() && Remaining(plan, files) && backup == MetadataOf(plan.files)
      requires phase.BackedUp? || phase.Deleting? || phase.Verified?
      modifies this`phase, this`files, this`deleted
      ensures Valid() && !outcome.Refused? && (!cut ==> outcome.Done?)
      ensures old(deleted) <= deleted && files == old(files) - (deleted - old(deleted))
      ensures outcome.Done? ==> phase == Complete && files == plan.files - plan.remove && RetentionReady(files)
    {
      hide Plannable, IsPlan, Remaining, RetentionReady, MetadataOf;
      outcome := Interrupted;
      var alive := Save(Deleting, cut);
      if !alive {
        return;
      }
      alive := Delete(cut);
      if !alive {
        return;
      }
      PlanIsCleaning(plan);
      assert steady ==> deleted == plan.remove by {
        if steady { SameRemoval(plan.files, deleted, plan.remove); }
      }
      alive := Save(Verified, cut);
      if !alive {
        return;
      }
      // Services come back.
      var unstarted := *;
      if cut && unstarted {
        return;
      }
      alive := Save(Complete, cut);
      if alive {
        outcome := Done;
      }
    }

    // However often it is cut off, an undisturbed cleanup ends exactly at the planned state as soon as
    // one attempt is not cut off; until then no file is missing that the plan does not remove.
    // `cuts` says of each attempt whether something may cut it off.
    method ApplyAndResume(cuts: seq<bool>) returns (outcome: Outcome)
      requires Valid() && phase == Preview && steady && sound && files == plan.files
      modifies this
      ensures Valid() && steady && !outcome.Refused?
      ensures false in cuts ==> outcome.Done?
      ensures outcome.Done? ==> files == plan.files - plan.remove && RetentionReady(files)
      ensures exists gone: set<Path> :: gone <= plan.remove && files == plan.files - gone
    {
      hide Plannable, IsPlan, RetentionReady, MetadataOf;
      RemainingIsPlanLessRemovals(plan, files);
      outcome := Interrupted;
      for i := 0 to |cuts|
        invariant Valid() && steady && !outcome.Refused?
        invariant outcome.Done? ==> files == plan.files - plan.remove && RetentionReady(files)
        invariant false in cuts[..i] ==> outcome.Done?
      {
        assert cuts[..i + 1] == cuts[..i] + [cuts[i]];
        if outcome.Interrupted? {
          if phase.Preview? {
            // The first checkpoint never landed: apply again.
            PreviewIsUntouched();
            outcome := Execute(false, None, cuts[i]);
          } else if phase.Complete? {
            // Only the report of success was lost.
            PlanIsCleaning(plan);
            outcome := Done;
          } else {
            ResumeIsAcceptable();
            outcome := Execute(true, None, cuts[i]);
          }
        }
      }
      assert cuts[..|cuts|] == cuts;
      assert deleted <= plan.remove;
    }

    lemma PreviewIsUntouched()
      requires Valid() && steady && sound && phase.Preview?
      ensures Acceptable(false, files)
    {
      assert plan.files - {} == plan.files;
    }

    lemma ResumeIsAcceptable()
      requires Valid() && steady && sound && Permits(true)
      ensures Acceptable(true, files)
    {
      assert plan.files - {} == plan.files;
    }
  }

  lemma MissingIsMissing(c: Cleanup)
    requires c.Valid()
    ensures c.deleted !! c.files.Keys
  {
    hide Plannable, IsPlan, MetadataOf;
  }

  ghost predicate Shrunk(files0: Files, deleted0: set<Path>, files: Files, deleted: set<Path>) {
    deleted0 <= deleted && files == files0 - (deleted - deleted0)
  }

  lemma ShrunkMore(files0: Files, deleted0: set<Path>, files: Files, deleted: set<Path>, p: Path)
    requires Shrunk(files0, deleted0, files, deleted) && p in files && deleted !! files.Keys
    ensures Shrunk(files0, deleted0, files - {p}, deleted + {p})
  {
  }

  lemma ShrunkIs(files0: Files, deleted0: set<Path>, files: Files, deleted: set<Path>)
    requires Shrunk(files0, deleted0, files, deleted)
    ensures deleted0 <= deleted && files == files0 - (deleted - deleted0)
  {
  }

  function Found(files: Files, written: Option<Files>): Files {
    if written.Some? then written.value else files
  }

  lemma PlanIsUnique(files: Files, plan: Plan)
    ensures forall other: Plan :: IsPlan(files, other) && IsPlan(files, plan) ==> other == plan
  {
  }

  lemma PlanIsCleaning(plan: Plan)
    requires Plannable(plan.files) && IsPlan(plan.files, plan)
    ensures plan.remove <= plan.files.Keys && plan.files - plan.remove == Cleaned(plan.files) && RetentionReady(plan.files - plan.remove)
  {
    hide Plannable;
    CleanedIsReady(plan.files);
  }

  lemma SameRemoval(files: Files, a: set<Path>, b: set<Path>)
    requires a <= b <= files.Keys && files - a == files - b
    ensures a == b
  {
    forall p | p in b ensures p in a {
      assert p !in files - b;
    }
  }
}
