/**
 The member loop of an archive (internal/artifact/archive.go): which archives are accepted, and what
 is on disk when one is.  Gzip and tar framing are not modelled; an archive is its members.
 */
module ArtifactArchive {
  import opened Text
  import opened Ordering
  import opened ArtifactManifest

  const SIGNATURE_MAX: int64 := 1024 * 1024
  const MANIFEST_MAX: int64 := 1024 * 1024
  const MODE_0644: int64 := 420
  const MODE_0755: int64 := 493

  datatype Limits = Limits(uncompressed: int64, file: int64, files: nat)

  // `owned`: owner and group are root without names; `plain`: no extended metadata.  `manifest` is
  // what the content decodes to, if it is one.
  datatype Member = Member(name: string, regular: bool, owned: bool, plain: bool, size: int64, mode: int64, digest: string, manifest: Option<Manifest>)

  datatype Extraction = Extraction(manifest: Manifest, tree: map<string, Member>, hasSignature: bool, total: int64, payloadFiles: nat)

  function ModeText(mode: int64): string {
    if mode == MODE_0755 then "0755" else "0644"
  }

  // ----- Acceptable archives ------------------------------------------------------------------------

  predicate Payload(m: Member) {
    m.name != MANIFEST && m.name != SIGNATURE
  }

  predicate MemberFits(m: Member, limits: Limits, index: nat) {
    && SafePath(m.name) && m.regular && m.owned && m.plain && 0 <= m.size <= limits.file
    && (m.mode == MODE_0644 || (m.mode == MODE_0755 && Payload(m)))
    && (m.name == SIGNATURE ==> m.size <= SIGNATURE_MAX && index == 1)
    && (m.name == MANIFEST ==> m.size <= MANIFEST_MAX)
    && (index == 0 ==> m.name == MANIFEST)
  }

  // One path is a directory above the other.
  predicate Nested(a: string, b: string) {
    HasPrefix(b, a + "/") || HasPrefix(a, b + "/")
  }

  ghost predicate Separate(members: seq<Member>) {
    forall i, j | 0 <= i < j < |members| :: members[i].name != members[j].name && !Nested(members[i].name, members[j].name)
  }

  function Bytes(members: seq<Member>): int {
    if members == [] then 0 else Bytes(members[..|members| - 1]) + members[|members| - 1].size as int
  }

  function PayloadNames(members: seq<Member>): seq<string> {
    if members == [] then []
    else
      var last := members[|members| - 1];
      PayloadNames(members[..|members| - 1]) + if Payload(last) then [last.name] else []
  }

  // What the archive says about its payload.
  function Actual(members: seq<Member>): map<string, Descriptor> {
    if members == [] then map[]
    else
      var last := members[|members| - 1];
      var before := Actual(members[..|members| - 1]);
      if Payload(last) then before[last.name := Descriptor(last.size, last.digest, ModeText(last.mode))] else before
  }

  function Tree(members: seq<Member>): map<string, Member> {
    if members == [] then map[] else Tree(members[..|members| - 1])[members[|members| - 1].name := members[|members| - 1]]
  }

  ghost predicate EachFits(members: seq<Member>, limits: Limits) {
    forall i | 0 <= i < |members| :: MemberFits(members[i], limits, i)
  }

  ghost predicate MembersFit(members: seq<Member>, limits: Limits) {
    && |members| <= limits.files + 2
    && EachFits(members, limits) && Separate(members) && Bytes(members) <= limits.uncompressed as int
  }

  ghost predicate InOrder(names: seq<string>) {
    forall i, j | 0 <= i < j < |names| :: Less(names[i], names[j])
  }

  predicate HasManifest(members: seq<Member>) {
    members != [] && members[0].size > 0 && members[0].manifest.Some? && ValidManifest(members[0].manifest.value)
  }

  ghost predicate WellFormed(members: seq<Member>, limits: Limits) {
    && MembersFit(members, limits) && HasManifest(members)
    && InOrder(PayloadNames(members)) && Actual(members) == members[0].manifest.value.files
  }

  // ----- What acceptance means --------------------------------------------------------------------------

  lemma {:induction false} TreeIs(members: seq<Member>)
    requires forall i, j | 0 <= i < j < |members| :: members[i].name != members[j].name
    ensures forall i | 0 <= i < |members| :: members[i].name in Tree(members) && Tree(members)[members[i].name] == members[i]
    ensures forall name <- Tree(members) :: exists i | 0 <= i < |members| :: members[i].name == name
  {
    if members != [] {
      TreeIs(members[..|members| - 1]);
    }
  }

  lemma {:induction false} ActualIs(members: seq<Member>)
    requires forall i, j | 0 <= i < j < |members| :: members[i].name != members[j].name
    ensures forall i | 0 <= i < |members| && Payload(members[i]) ::
      members[i].name in Actual(members) && Actual(members)[members[i].name] == Descriptor(members[i].size, members[i].digest, ModeText(members[i].mode))
    ensures forall name <- Actual(members) :: exists i | 0 <= i < |members| :: members[i].name == name && Payload(members[i])
  {
    if members != [] {
      ActualIs(members[..|members| - 1]);
    }
  }

  // The extracted tree is the manifest, the signature if there is one, and exactly the files that the
  // manifest describes, each with the size, digest and mode it states.
  lemma TreeIsManifest(members: seq<Member>, limits: Limits)
    requires WellFormed(members, limits)
    ensures var files := members[0].manifest.value.files;
      && (forall name :: name in Tree(members) && name != MANIFEST && name != SIGNATURE <==> name in files)
      && (forall name <- files :: name in Tree(members) && files[name] == Descriptor(Tree(members)[name].size, Tree(members)[name].digest, ModeText(Tree(members)[name].mode)))
      && (forall name <- files :: (files[name].mode == "0644" && Tree(members)[name].mode == 420) || (files[name].mode == "0755" && Tree(members)[name].mode == 493))
      && MANIFEST in Tree(members) && Tree(members)[MANIFEST] == members[0]
      && (SIGNATURE in Tree(members) <==> |members| > 1 && members[1].name == SIGNATURE)
  {
    assert MemberFits(members[0], limits, 0);
    TreeIs(members);
    ActualIs(members);
    var files := members[0].manifest.value.files;
    forall name | name in Tree(members) && name != MANIFEST && name != SIGNATURE ensures name in files {
      var i :| 0 <= i < |members| && members[i].name == name;
      assert Payload(members[i]);
    }
    forall name | name in files
      ensures name in Tree(members) && name != MANIFEST && name != SIGNATURE
      ensures files[name] == Descriptor(Tree(members)[name].size, Tree(members)[name].digest, ModeText(Tree(members)[name].mode))
      ensures (files[name].mode == "0644" && Tree(members)[name].mode == 420) || (files[name].mode == "0755" && Tree(members)[name].mode == 493)
    {
      var i :| 0 <= i < |members| && members[i].name == name && Payload(members[i]);
      assert MemberFits(members[i], limits, i);
      assert (files[name].mode == "0644" && Tree(members)[name].mode == 420) || (files[name].mode == "0755" && Tree(members)[name].mode == 493);
    }
    if SIGNATURE in Tree(members) {
      var i :| 0 <= i < |members| && members[i].name == SIGNATURE;
      assert MemberFits(members[i], limits, i);
    }
  }

  // The limit on members lets one payload file more than MaxFiles through, when there is no signature.
  lemma {:induction false} PayloadCount(members: seq<Member>)
    requires forall i, j | 0 <= i < j < |members| :: members[i].name != members[j].name
    ensures |PayloadNames(members)| + (if MANIFEST in Tree(members) then 1 else 0) + (if SIGNATURE in Tree(members) then 1 else 0) == |members|
    ensures |Actual(members)| == |PayloadNames(members)|
  {
    if members != [] {
      var init, last := members[..|members| - 1], members[|members| - 1];
      PayloadCount(init);
      TreeIs(init);
      ActualIs(init);
      assert last.name !in Tree(init) && last.name !in Actual(init);
      assert MANIFEST != SIGNATURE;
    }
  }

  // At most `files` payload files exactly when there is a signature or a member to spare; never more
  // than one too many.
  lemma PayloadLimit(members: seq<Member>, limits: Limits)
    requires WellFormed(members, limits)
    ensures |Actual(members)| <= limits.files <==> SIGNATURE in Tree(members) || |members| <= limits.files + 1
    ensures |Actual(members)| <= limits.files + 1
  {
    TreeIsManifest(members, limits);
    PayloadCount(members);
  }

  // An archive with the files `a` and `b`, and limits that mean to allow only one.
  const DIGEST: string := seq(64, _ => 'a')
  const TWO_FILES := map["a" := Descriptor(1, DIGEST, "0755"), "b" := Descriptor(2, DIGEST, "0644")]
  const TWO_FILE_MANIFEST := Manifest(SCHEMA, FORMAT_VERSION, ["x"], "1", true, "a", "", TWO_FILES)
  const HEAD := Member(MANIFEST, true, true, true, 3, MODE_0644, DIGEST, Some(TWO_FILE_MANIFEST))
  const FILE_A := Member("a", true, true, true, 1, MODE_0755, DIGEST, None)
  const FILE_B := Member("b", true, true, true, 2, MODE_0644, DIGEST, None)
  const ONE_FILE := Limits(100, 100, 1)

  lemma TwoFileManifestIsValid()
    ensures ValidManifest(TWO_FILE_MANIFEST)
  {
    PlainName("a");
    PlainName("b");
    assert Sha256(DIGEST) && Identifier("x") && !Control('1');
    hide SafePath, Sha256, Identifier, Control, HasPrefix;
    assert SafeDescriptor("a", TWO_FILES["a"]) && SafeDescriptor("b", TWO_FILES["b"]);
    hide SafeDescriptor;
    assert TWO_FILES.Keys == {"a", "b"};
  }

  lemma TwoFilesFit()
    ensures MembersFit([HEAD, FILE_A, FILE_B], ONE_FILE)
  {
    var members := [HEAD, FILE_A, FILE_B];
    TwoFilesSpelled();
    TwoFilesSeparate();
    EachFileFits();
    hide MemberFits, Separate, Bytes;
    assert EachFits(members, ONE_FILE);
  }

  lemma EachFileFits()
    ensures MemberFits(HEAD, ONE_FILE, 0) && MemberFits(FILE_A, ONE_FILE, 1) && MemberFits(FILE_B, ONE_FILE, 2)
  {
    hide SafePath, MemberFits;
    PlainName("a");
    PlainName("b");
    ManifestIsSafe();
    assert |"a"| == |"b"| == 1 && |MANIFEST| == 13 && |SIGNATURE| == 12;
    OrdinaryMember(HEAD, 0);
    OrdinaryMember(FILE_A, 1);
    OrdinaryMember(FILE_B, 2);
  }

  lemma ManifestIsSafe()
    ensures SafePath(MANIFEST)
  {
    PlainName(MANIFEST);
  }

  lemma OrdinaryMember(m: Member, index: nat)
    requires SafePath(m.name) && |m.name| != |SIGNATURE| && m.regular && m.owned && m.plain && 0 <= m.size <= 100
    requires m.mode == MODE_0644 || (m.mode == MODE_0755 && |m.name| != |MANIFEST|)
    requires index == 0 ==> m.name == MANIFEST
    ensures MemberFits(m, ONE_FILE, index)
  {
    hide SafePath;
  }

  lemma TwoFilesSeparate()
    ensures Separate([HEAD, FILE_A, FILE_B])
  {
    Unrelated("a", "b");
    Unrelated(MANIFEST, "a");
    Unrelated(MANIFEST, "b");
    hide Nested;
  }

  lemma Unrelated(a: string, b: string)
    requires a != "" && b != "" && a[0] != b[0]
    ensures !Nested(a, b)
  {
    assert (a + "/")[0] == a[0] && (b + "/")[0] == b[0];
  }

  lemma TwoFilesSpelled()
    ensures var members := [HEAD, FILE_A, FILE_B];
      Bytes(members) == 6 && PayloadNames(members) == ["a", "b"] && Actual(members) == TWO_FILES
  {
    SpelledNext([], HEAD);
    SpelledNext([HEAD], FILE_A);
    SpelledNext([HEAD, FILE_A], FILE_B);
    assert [] + [HEAD] == [HEAD] && [HEAD] + [FILE_A] == [HEAD, FILE_A] && [HEAD, FILE_A] + [FILE_B] == [HEAD, FILE_A, FILE_B];
    assert |"a"| == |"b"| == 1 && |MANIFEST| == 13 && |SIGNATURE| == 12;
    assert Bytes([]) == 0 && PayloadNames([]) == [] && Actual([]) == map[];
    hide Bytes, PayloadNames, Actual;
    assert TWO_FILES == map[]["a" := Descriptor(1, DIGEST, "0755")]["b" := Descriptor(2, DIGEST, "0644")];
  }

  lemma SpelledNext(before: seq<Member>, m: Member)
    ensures Bytes(before + [m]) == Bytes(before) + m.size as int
    ensures PayloadNames(before + [m]) == PayloadNames(before) + if Payload(m) then [m.name] else []
    ensures Actual(before + [m]) == if Payload(m) then Actual(before)[m.name := Descriptor(m.size, m.digest, ModeText(m.mode))] else Actual(before)
  {
    assert (before + [m])[..|before|] == before;
  }

  // Without a signature the limit lets one payload file more through.
  lemma OneFileTooMany()
    ensures WellFormed([HEAD, FILE_A, FILE_B], ONE_FILE) && |Actual([HEAD, FILE_A, FILE_B])| == ONE_FILE.files + 1
  {
    TwoFileManifestIsValid();
    TwoFilesFit();
    TwoFilesSpelled();
    hide MembersFit, ValidManifest, Actual, PayloadNames;
    assert Less("a", "b");
    assert TWO_FILES.Keys == {"a", "b"} && |TWO_FILES| == |TWO_FILES.Keys|;
  }

  lemma PlainName(name: string)
    requires name != "" && '/' !in name && '\\' !in name && ':' !in name && PlainPart(name) && forall c <- name :: !Control(c)
    ensures SafePath(name)
  {
    SplitField(name, [], '/');
    assert Split(name, '/') == [name];
  }

  // ----- The loop --------------------------------------------------------------------------------------------

  // One member against what came before.
  method CheckMember(m: Member, limits: Limits, index: nat, seen: set<string>, total: int64) returns (ok: bool)
    requires 0 <= total <= limits.uncompressed && index <= limits.files + 2
    ensures ok <==> (index < limits.files + 2 && MemberFits(m, limits, index) && m.name !in seen && total as int + m.size as int <= limits.uncompressed as int
                     && forall name <- seen :: !Nested(name, m.name))
  {
    if index + 1 > limits.files + 2 {
      return false;
    }
    var safe := ValidateRelativePath(m.name);
    if !safe || m.name in seen || !m.regular || !m.owned || !m.plain {
      return false;
    }
    if m.size < 0 || m.size > limits.file {
      return false;
    }
    if m.name == SIGNATURE && m.size > SIGNATURE_MAX {
      return false;
    }
    // The subtraction cannot overflow, where the sum could.
    if total > limits.uncompressed - m.size {
      return false;
    }
    if m.name == MANIFEST || m.name == SIGNATURE {
      if m.mode != MODE_0644 {
        return false;
      }
    } else if m.mode != MODE_0644 && m.mode != MODE_0755 {
      return false;
    }
    if (index == 0 && m.name != MANIFEST) || (m.name == SIGNATURE && index != 1) {
      return false;
    }
    // A file cannot be created below a file, nor where there is a directory.
    if exists name <- seen :: Nested(name, m.name) {
      return false;
    }
    return m.name != MANIFEST || m.size <= MANIFEST_MAX;
  }

  lemma {:induction false} PrefixFits(members: seq<Member>, limits: Limits, n: nat)
    requires MembersFit(members, limits) && n <= |members|
    ensures MembersFit(members[..n], limits)
    decreases |members| - n
  {
    if n < |members| {
      PrefixFits(members, limits, n + 1);
      var longer := members[..n + 1];
      assert longer[..n] == members[..n];
      assert MemberFits(longer[n], limits, n);
    } else {
      assert members[..n] == members;
    }
  }

  lemma NextFits(members: seq<Member>, limits: Limits, n: nat)
    requires n < |members| && MembersFit(members[..n], limits)
    ensures MembersFit(members[..n + 1], limits) <==>
      && n < limits.files + 2 && MemberFits(members[n], limits, n) && Bytes(members[..n]) + members[n].size as int <= limits.uncompressed as int
      && forall i | 0 <= i < n :: members[i].name != members[n].name && !Nested(members[i].name, members[n].name)
  {
    var before, longer := members[..n], members[..n + 1];
    assert longer == before + [members[n]];
    SeparateNext(before, members[n]);
    EachNext(before, members[n], limits);
    assert longer[..n] == before;
    assert Bytes(longer) == Bytes(before) + members[n].size as int;
    assert forall i | 0 <= i < n :: before[i] == members[i];
    hide MemberFits, Nested, Separate, Bytes, EachFits;
  }

  lemma EachNext(before: seq<Member>, next: Member, limits: Limits)
    ensures EachFits(before + [next], limits) <==> EachFits(before, limits) && MemberFits(next, limits, |before|)
  {
    hide MemberFits;
    var longer := before + [next];
    assert longer[|before|] == next;
    assert forall i | 0 <= i < |before| :: longer[i] == before[i];
  }

  lemma SeparateNext(before: seq<Member>, next: Member)
    ensures Separate(before + [next]) <==>
      (Separate(before) && forall i | 0 <= i < |before| :: before[i].name != next.name && !Nested(before[i].name, next.name))
  {
    hide Nested;
    var longer := before + [next];
    assert forall i | 0 <= i < |before| :: longer[i] == before[i];
    assert longer[|before|] == next;
  }

  function Names(members: seq<Member>): set<string> {
    set m | m in members :: m.name
  }

  lemma InNames(members: seq<Member>, n: nat, next: Member)
    requires n <= |members|
    ensures (next.name !in Names(members[..n]) && forall name <- Names(members[..n]) :: !Nested(name, next.name)) <==>
      forall i | 0 <= i < n :: members[i].name != next.name && !Nested(members[i].name, next.name)
  {
    hide Nested;
    assert forall i | 0 <= i < n :: members[i] == members[..n][i] && members[i] in members[..n];
    forall m | m in members[..n] ensures exists i | 0 <= i < n :: members[i] == m {
      var i :| 0 <= i < n && members[..n][i] == m;
    }
  }

  // `faulty`: the disk or the budget may refuse a member.
  method ValidateAndExtract(members: seq<Member>, limits: Limits, faulty: bool) returns (r: Option<Extraction>)
    requires limits.uncompressed > 0 && limits.file > 0 && limits.files > 0
    ensures r.Some? ==> WellFormed(members, limits)
    ensures !faulty && WellFormed(members, limits) ==> r.Some?
    ensures r.Some? ==> r.value.total as int == Bytes(members) && r.value.payloadFiles == |Actual(members)| && r.value.tree == Tree(members)
    ensures r.Some? ==> r.value.manifest == members[0].manifest.value && (r.value.hasSignature <==> |members| > 1 && members[1].name == SIGNATURE)
  {
    hide MembersFit, MemberFits, Separate, Nested, InOrder, ValidManifest;
    var tree: map<string, Member>, actual: map<string, Descriptor> := map[], map[];
    var ordered: seq<string> := [];
    var seen: set<string> := {};
    var total: int64 := 0;
    var hasSignature := false;
    r := None;
    NothingYet(limits);
    for n := 0 to |members|
      invariant MembersFit(members[..n], limits) && n <= limits.files + 2
      invariant 0 <= total <= limits.uncompressed && total as int == Bytes(members[..n])
      invariant seen == Names(members[..n]) && tree == Tree(members[..n])
      invariant actual == Actual(members[..n]) && ordered == PayloadNames(members[..n])
      invariant hasSignature <==> n > 1 && members[1].name == SIGNATURE
    {
      var m := members[n];
      assert members[..n + 1][..n] == members[..n] && members[..n + 1][n] == m;
      NextFits(members, limits, n);
      InNames(members, n, m);
      var ok := CheckMember(m, limits, n, seen, total);
      if !ok {
        if WellFormed(members, limits) { PrefixFits(members, limits, n + 1); }
        return;
      }
      FitsMeans(m, limits, n);
      var refused := *;
      if faulty && refused {
        return;
      }
      seen, total, tree := seen + {m.name}, total + m.size, tree[m.name := m];
      NamesNext(members, n);
      if m.name == SIGNATURE {
        hasSignature := true;
      } else if m.name != MANIFEST {
        ordered := ordered + [m.name];
        actual := actual[m.name := Descriptor(m.size, m.digest, ModeText(m.mode))];
      }
      FitsLimit(members[..n + 1], limits);
    }
    assert members[..|members|] == members;
    var sorted := StringsAreSorted(ordered);
    SortedIsInOrder(members, limits);
    if !HasManifest(members) || !sorted {
      return;
    }
    var same := ValidatePayload(members[0].manifest.value, actual);
    if !same {
      return;
    }
    r := Some(Extraction(members[0].manifest.value, tree, hasSignature, total, |actual|));
  }

  lemma NothingYet(limits: Limits)
    requires limits.uncompressed > 0
    ensures MembersFit([], limits)
  {
  }

  lemma FitsLimit(members: seq<Member>, limits: Limits)
    requires MembersFit(members, limits)
    ensures |members| <= limits.files + 2
  {
  }

  lemma FitsMeans(m: Member, limits: Limits, n: nat)
    requires MemberFits(m, limits, n)
    ensures 0 <= m.size && (m.name == SIGNATURE ==> n == 1) && (n == 0 ==> m.name == MANIFEST)
  {
  }

  lemma NamesNext(members: seq<Member>, n: nat)
    requires n < |members|
    ensures Names(members[..n + 1]) == Names(members[..n]) + {members[n].name}
  {
    assert members[..n + 1] == members[..n] + [members[n]];
  }

  // sort.StringsAreSorted: no name is below its predecessor.
  method StringsAreSorted(names: seq<string>) returns (ok: bool)
    ensures ok <==> forall i | 0 < i < |names| :: !Less(names[i], names[i - 1])
  {
    var i := 1;
    while i < |names|
      invariant forall j | 0 < j < i && j < |names| :: !Less(names[j], names[j - 1])
    {
      if Less(names[i], names[i - 1]) {
        return false;
      }
      i := i + 1;
    }
    return true;
  }

  lemma {:induction false} PayloadNamesDiffer(members: seq<Member>)
    requires forall i, j | 0 <= i < j < |members| :: members[i].name != members[j].name
    ensures forall i, j | 0 <= i < j < |PayloadNames(members)| :: PayloadNames(members)[i] != PayloadNames(members)[j]
    ensures forall name <- PayloadNames(members) :: exists i | 0 <= i < |members| :: members[i].name == name
  {
    if members != [] {
      var init, last := members[..|members| - 1], members[|members| - 1];
      PayloadNamesDiffer(init);
      var names := PayloadNames(init);
      forall i | 0 <= i < |names| ensures names[i] != last.name {
        assert names[i] in names;
        var j :| 0 <= j < |init| && init[j].name == names[i];
        assert members[j].name == names[i];
      }
      forall name <- PayloadNames(members) ensures exists i | 0 <= i < |members| :: members[i].name == name {
        if name in names {
          var j :| 0 <= j < |init| && init[j].name == name;
          assert members[j].name == name;
        } else {
          assert last.name == name;
        }
      }
    }
  }

  lemma {:induction false} NeighboursOrdered(names: seq<string>, i: nat, j: nat)
    requires forall k | 0 < k < |names| :: Less(names[k - 1], names[k])
    requires i < j < |names|
    ensures Less(names[i], names[j])
    decreases j
  {
    if i < j - 1 {
      NeighboursOrdered(names, i, j - 1);
      LessTransitive(names[i], names[j - 1], names[j]);
    }
  }

  // Distinct names that never go down go up.
  lemma SortedIsInOrder(members: seq<Member>, limits: Limits)
    requires MembersFit(members, limits)
    ensures var names := PayloadNames(members); (forall i | 0 < i < |names| :: !Less(names[i], names[i - 1])) <==> InOrder(names)
  {
    var names := PayloadNames(members);
    assert forall i, j | 0 <= i < j < |members| :: members[i].name != members[j].name;
    PayloadNamesDiffer(members);
    hide Less;
    if forall i | 0 < i < |names| :: !Less(names[i], names[i - 1]) {
      forall k | 0 < k < |names| ensures Less(names[k - 1], names[k]) {
        LessTotal(names[k - 1], names[k]);
      }
      forall i, j | 0 <= i < j < |names| ensures Less(names[i], names[j]) {
        NeighboursOrdered(names, i, j);
      }
    }
    if InOrder(names) {
      forall i | 0 < i < |names| ensures !Less(names[i], names[i - 1]) {
        if Less(names[i], names[i - 1]) {
          LessTransitive(names[i - 1], names[i], names[i - 1]);
          LessTotal(names[i - 1], names[i - 1]);
        }
      }
    }
  }
}
