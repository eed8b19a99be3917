/**
 Publishing and removing artifacts (internal/artifact/store.go).  The directory of artifacts changes
 by atomic renames only as far as published names go; a process that dies in between leaves staging,
 and startup removes that.

 An archive's ID is its digest; two archives with one ID are the same archive.
 */
module ArtifactStore {
  import opened Text
  import opened Ordering
  import opened ArtifactManifest
  import opened ArtifactArchive

  datatype Archive = Archive(id: string, size: nat, members: seq<Member>)

  datatype Record = Record(id: string, manifest: Manifest, hasSignature: bool, compressed: nat, uncompressed: int)

  // `strange` are entries that the record does not account for.
  datatype Directory = Directory(archive: Option<Archive>, record: Option<Record>, payload: Option<map<string, Member>>, strange: set<string>)

  const EMPTY := Directory(None, None, None, {})

  type Entries = map<string, Directory>

  datatype Outcome = Done(id: string) | Refused | Interrupted

  // ----- Names ------------------------------------------------------------------------------------

  predicate Digits(s: string) {
    s != "" && forall c <- s :: '0' <= c <= '9'
  }

  predicate ImportStage(name: string) {
    HasPrefix(name, ".import-") && Digits(name[8..])
  }

  predicate DeleteStage(name: string) {
    HasPrefix(name, ".delete-") && |name| > 73 && Sha256(name[8..72]) && name[72] == '-' && Digits(name[73..])
  }

  predicate Upload(name: string) {
    HasPrefix(name, ".upload-") && |name| > 15 && name[|name| - 7..] == ".tar.gz" && Digits(name[8..|name| - 7])
  }

  predicate Staging(name: string) {
    ImportStage(name) || DeleteStage(name)
  }

  // Every name this store makes up is one that startup recognizes, and no published name is.
  lemma StagingNames(digits: string, id: string)
    requires Digits(digits) && Sha256(id)
    ensures Staging(".import-" + digits) && Staging(".delete-" + id + "-" + digits) && Upload(".upload-" + digits + ".tar.gz")
    ensures !Staging(id) && !Upload(id)
  {
    var d := ".delete-" + id + "-" + digits;
    assert d[8..72] == id && d[73..] == digits;
    assert (".import-" + digits)[8..] == digits;
    var u := ".upload-" + digits + ".tar.gz";
    assert u[8..|u| - 7] == digits && u[|u| - 7..] == ".tar.gz";
    PublishedIsNotStaging(id);
  }

  lemma PublishedIsNotStaging(id: string)
    requires Sha256(id)
    ensures !Staging(id) && !Upload(id)
  {
    assert id[0] in id;
    assert forall prefix: string :: prefix != "" && HasPrefix(id, prefix) ==> id[0] == prefix[0];
  }

  // ----- What is on disk ------------------------------------------------------------------------------

  function Published(entries: Entries): Entries {
    map name <- entries | Sha256(name) :: entries[name]
  }

  function WithoutStaging(entries: Entries): Entries {
    map name <- entries | !Staging(name) :: entries[name]
  }

  // A complete artifact: an accepted archive with this digest, its tree, and the record of both.
  ghost predicate Complete(id: string, d: Directory, limits: Limits) {
    && d.archive.Some? && d.archive.value.id == id && WellFormed(d.archive.value.members, limits)
    && d.payload == Some(Tree(d.archive.value.members))
    && d.record.Some? && d.record.value == RecordOf(d.archive.value)
  }

  function RecordOf(a: Archive): Record
    requires HasManifest(a.members)
  {
    Record(a.id, a.members[0].manifest.value, |a.members| > 1 && a.members[1].name == SIGNATURE, a.size, Bytes(a.members))
  }

  // ----- The store ------------------------------------------------------------------------------------

  class Store {
    const limits: Limits
    const compressedLimit: nat
    var entries: Entries
    var uploads: map<string, nat>

    constructor (limits: Limits, compressedLimit: nat)
      requires limits.uncompressed > 0 && limits.file > 0 && limits.files > 0
      ensures Valid() && entries == map[] && uploads == map[]
    {
      this.limits, this.compressedLimit, entries, uploads := limits, compressedLimit, map[], map[];
    }

    // At every moment a SHA-named directory is complete.
    ghost predicate Valid()
      reads this
    {
      && limits.uncompressed > 0 && limits.file > 0 && limits.files > 0
      && forall id <- entries :: Sha256(id) ==> Complete(id, entries[id], limits)
    }

    // Load succeeds on a directory with all its parts and a record that is its own.
    method Load(id: string) returns (found: bool)
      requires Valid()
      ensures found <==> Sha256(id) && id in entries
    {
      hide WellFormed;
      found := Sha256(id) && id in entries && entries[id].payload.Some? && entries[id].archive.Some?
        && entries[id].record.Some? && entries[id].record.value.id == id;
    }

    // What a process that stops here, or returns an error, leaves in a staging directory.
    method Leave(stage: string, faulty: bool) returns (outcome: Outcome)
      requires Valid() && Staging(stage)
      modifies this`entries
      ensures Valid() && (outcome.Refused? || (faulty && outcome.Interrupted?))
      ensures outcome.Refused? ==> entries == old(entries) - {stage}
      ensures Published(entries) == old(Published(entries)) && WithoutStaging(entries) == old(WithoutStaging(entries))
    {
      hide Complete, Staging, Published, WithoutStaging;
      StagingIsNotPublished(stage);
      var dies: bool, partial: Directory := *, *;
      StageChanges(entries, stage, partial);
      if faulty && dies {
        entries := entries[stage := partial];
        outcome := Interrupted;
      } else {
        entries := entries - {stage};
        outcome := Refused;
      }
    }

    // Import of `source`; `digits` is what the system picks for temporary names.  `faulty`: the process
    // may die, the upload break off, the disk or the budget refuse.
    method Import(source: Archive, digits: string, faulty: bool) returns (outcome: Outcome)
      requires Valid() && Digits(digits) && Sha256(source.id)
      requires ".import-" + digits !in entries
      modifies this`entries, this`uploads
      ensures Valid()
      ensures outcome.Done? ==> outcome.id == source.id && source.id in entries
      ensures outcome.Done? ==> source.id in old(entries) || WellFormed(source.members, limits)
      // Unless the process dies, nothing is left in staging.
      ensures outcome.Done? && source.id in old(entries) ==> entries == old(entries)
      ensures outcome.Done? && source.id !in old(entries) ==> entries == old(entries)[source.id := entries[source.id]]
      ensures outcome.Refused? ==> entries == old(entries)
      ensures !outcome.Interrupted? ==> uploads == old(uploads) - {".upload-" + digits + ".tar.gz"}
      ensures !faulty ==> (outcome.Done? <==> 0 < source.size <= compressedLimit && (source.id in old(entries) || WellFormed(source.members, limits)))
      ensures Published(entries) == old(Published(entries)) || (source.id !in old(entries) && Appears(old(Published(entries)), Published(entries), source.id))
      ensures source.id in old(entries) ==> Published(entries) == old(Published(entries))
      ensures outcome.Refused? ==> Published(entries) == old(Published(entries))
      ensures WithoutStaging(entries) == old(WithoutStaging(entries)) || Appears(old(WithoutStaging(entries)), WithoutStaging(entries), source.id)
      ensures forall name <- uploads :: name in old(uploads) || Upload(name)
    {
      hide Complete, WellFormed, Staging, Upload, Published, WithoutStaging, Digits;
      StagingNames(digits, source.id);
      StagingIsNotPublished(".import-" + digits);
      var upload, stage := ".upload-" + digits + ".tar.gz", ".import-" + digits;
      // The upload arrives within its credit, or breaks off.
      var received: nat := *;
      uploads := uploads[upload := received];
      var dies: bool, broken: bool := *, *;
      if faulty && dies {
        return Interrupted;
      }
      if (faulty && broken) || source.size > compressedLimit || source.size == 0 {
        uploads := uploads - {upload};
        return Refused;
      }
      var found := Load(source.id);
      if found {
        uploads := uploads - {upload};
        return Done(source.id);
      }
      var extraction := ValidateAndExtract(source.members, limits, faulty);
      dies := *;
      if (faulty && dies) || extraction.None? {
        outcome := Leave(stage, faulty);
        if outcome.Refused? {
          uploads := uploads - {upload};
        }
        return;
      }
      uploads := uploads - {upload};
      broken := *;
      if faulty && broken {
        outcome := Leave(stage, faulty);
        return;
      }
      var e := extraction.value;
      var record := Record(source.id, e.manifest, e.hasSignature, source.size, e.total as int);
      var d := Directory(Some(source), Some(record), Some(e.tree), {});
      CompleteIs(source, d, limits);
      outcome := Publish(stage, source.id, d, faulty);
    }

    // The staged directory is complete; one rename makes it the artifact.
    method Publish(stage: string, id: string, d: Directory, faulty: bool) returns (outcome: Outcome)
      requires Valid() && Staging(stage) && Sha256(id) && stage !in entries && id !in entries && Complete(id, d, limits)
      modifies this`entries
      ensures Valid() && (outcome.Done? ==> outcome.id == id && id in entries) && (!faulty ==> outcome.Done?)
      ensures outcome.Done? ==> entries == old(entries)[id := d]
      ensures outcome.Refused? ==> entries == old(entries)
      ensures outcome.Refused? ==> Published(entries) == old(Published(entries)) && WithoutStaging(entries) == old(WithoutStaging(entries))
      ensures (Published(entries) == old(Published(entries)) && WithoutStaging(entries) == old(WithoutStaging(entries)))
        || (Appears(old(Published(entries)), Published(entries), id) && Appears(old(WithoutStaging(entries)), WithoutStaging(entries), id))
    {
      hide Complete, Staging, Sha256, Published, WithoutStaging;
      StagingIsNotPublished(stage);
      StageChanges(entries, stage, d);
      Publishing(entries, stage, d, id);
      entries := entries[stage := d];
      var broken: bool := *;
      if faulty && broken {
        outcome := Leave(stage, faulty);
        return;
      }
      // rename
      entries := entries[id := d] - {stage};
      var dies: bool := *;
      outcome := if faulty && dies then Interrupted else Done(id);
    }

    // OwnedSize: whether the directory holds nothing that its record does not account for.
    method Owned(id: string) returns (found: bool, safe: bool)
      requires Valid()
      ensures found <==> Sha256(id) && id in entries
      ensures found ==> (safe <==> entries[id].strange == {})
    {
      found := Load(id);
      safe := found && entries[id].strange == {};
    }

    // Remove: one rename takes the published name away; what follows happens in staging.
    method Remove(id: string, digits: string, faulty: bool) returns (outcome: Outcome)
      requires Valid() && Digits(digits)
      requires ".delete-" + id + "-" + digits !in entries
      modifies this`entries
      ensures Valid()
      ensures outcome.Done? ==> outcome.id == id && Published(entries) == old(Published(entries)) - {id}
      // Unless the process dies, nothing is left in staging.
      ensures outcome.Done? ==> entries == old(entries) - {id}
      ensures outcome.Refused? ==> entries == old(entries)
      ensures !faulty ==> (outcome.Done? <==> Sha256(id) && id in old(entries) && old(entries)[id].strange == {})
      ensures Published(entries) == old(Published(entries)) || (Sha256(id) && id in old(entries) && old(entries)[id].strange == {} && Published(entries) == old(Published(entries)) - {id})
      ensures outcome.Refused? ==> Published(entries) == old(Published(entries))
      ensures WithoutStaging(entries) == old(WithoutStaging(entries)) || WithoutStaging(entries) == old(WithoutStaging(entries)) - {id}
    {
      hide Complete, WellFormed, Staging, Published, WithoutStaging, Sha256;
      if !Sha256(id) {
        return Refused;
      }
      var found, safe := Owned(id);
      if !found || !safe {
        return Refused;
      }
      var stage := ".delete-" + id + "-" + digits;
      StagingNames(digits, id);
      StagingIsNotPublished(stage);
      // The marker file comes and goes before the rename.
      var marked: bool, refused: bool, dies: bool := *, *, *;
      if faulty && refused {
        if marked && dies {
          StageChanges(entries, stage, EMPTY);
          entries := entries[stage := EMPTY];
          return Interrupted;
        }
        return Refused;
      }
      MoveToDeletionStage(id, stage);
      var partial: Directory := *;
      StageChanges(entries, stage, partial);
      if faulty && dies {
        entries := entries[stage := partial];
        return Interrupted;
      }
      entries := entries - {stage};
      return Done(id);
    }

    method MoveToDeletionStage(id: string, stage: string)
      requires Valid() && Sha256(id) && id in entries && Staging(stage) && stage !in entries
      modifies this`entries
      ensures Valid() && Published(entries) == old(Published(entries)) - {id} && WithoutStaging(entries) == old(WithoutStaging(entries)) - {id}
      ensures entries == old(entries)[stage := old(entries)[id]] - {id}
    {
      hide Complete, Staging, Sha256;
      StagingIsNotPublished(stage);
      Unpublishing(entries, stage, entries[id], id);
      entries := entries[stage := entries[id]] - {id};
    }

    // CleanStaging, at startup: staging goes, everything else stays.
    method CleanStaging()
      requires Valid()
      modifies this`entries, this`uploads
      ensures Valid() && entries == old(WithoutStaging(entries))
      ensures Published(entries) == old(Published(entries))
      ensures forall name <- uploads :: name in old(uploads) && !Upload(name)
    {
      forall name | Sha256(name) ensures !Staging(name) { PublishedIsNotStaging(name); }
      hide Complete, Staging, Upload, Sha256;
      entries := WithoutStaging(entries);
      uploads := map name <- uploads | !Upload(name) :: uploads[name];
    }

    // However far an import gets before the process dies, the next start finds what was there before,
    // or that and the complete artifact.
    method ImportThenRestart(source: Archive, digits: string, faulty: bool) returns (outcome: Outcome)
      requires Valid() && Digits(digits) && Sha256(source.id) && ".import-" + digits !in entries
      modifies this`entries, this`uploads
      ensures Valid()
      ensures entries == old(WithoutStaging(entries)) || (Appears(old(WithoutStaging(entries)), entries, source.id) && Complete(source.id, entries[source.id], limits))
      ensures outcome.Done? ==> source.id in entries
    {
      hide Complete, Staging, Upload;
      outcome := Import(source, digits, faulty);
      CleanStaging();
      if outcome.Done? {
        PublishedIsNotStaging(source.id);
      }
    }

    method RemoveThenRestart(id: string, digits: string, faulty: bool) returns (outcome: Outcome)
      requires Valid() && Digits(digits) && ".delete-" + id + "-" + digits !in entries
      modifies this`entries, this`uploads
      ensures Valid()
      ensures entries == old(WithoutStaging(entries)) || entries == old(WithoutStaging(entries)) - {id}
    {
      hide Complete, Staging, Upload;
      outcome := Remove(id, digits, faulty);
      CleanStaging();
    }
  }

  ghost predicate Appears(before: Entries, after: Entries, id: string) {
    id !in before && id in after && after == before[id := after[id]]
  }

  lemma StagingIsNotPublished(stage: string)
    requires Staging(stage)
    ensures !Sha256(stage)
  {
    if Sha256(stage) {
      PublishedIsNotStaging(stage);
    }
  }

  lemma CompleteIs(source: Archive, d: Directory, limits: Limits)
    requires WellFormed(source.members, limits)
    requires d.archive == Some(source) && d.payload == Some(Tree(source.members))
    requires d.record == Some(Record(source.id, source.members[0].manifest.value, |source.members| > 1 && source.members[1].name == SIGNATURE, source.size, Bytes(source.members)))
    ensures Complete(source.id, d, limits)
  {
  }

  lemma Publishing(before: Entries, stage: string, d: Directory, id: string)
    requires Staging(stage) && Sha256(id) && stage !in before && id !in before
    ensures Appears(Published(before), Published(before[stage := d][id := d] - {stage}), id)
    ensures Appears(WithoutStaging(before), WithoutStaging(before[stage := d][id := d] - {stage}), id)
  {
    StagingIsNotPublished(stage);
    PublishedIsNotStaging(id);
    hide Staging, Sha256;
  }

  lemma Unpublishing(before: Entries, stage: string, d: Directory, id: string)
    requires Staging(stage) && Sha256(id) && stage !in before && id in before
    ensures Published(before[stage := d] - {id}) == Published(before) - {id}
    ensures WithoutStaging(before[stage := d] - {id}) == WithoutStaging(before) - {id}
  {
    StagingIsNotPublished(stage);
    PublishedIsNotStaging(id);
    hide Staging, Sha256;
  }

  lemma StageChanges(before: Entries, stage: string, d: Directory)
    requires Staging(stage)
    ensures Published(before[stage := d]) == Published(before) == Published(before - {stage})
    ensures WithoutStaging(before[stage := d]) == WithoutStaging(before) == WithoutStaging(before - {stage})
  {
    StagingIsNotPublished(stage);
    hide Staging, Sha256;
  }
}
