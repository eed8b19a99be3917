/**
 Manifests and paths (internal/artifact/manifest.go).  JSON decoding is not modelled: a manifest
 file carries what it decodes to.
 */
module ArtifactManifest {
  import opened Text
  import opened Sets

  const MANIFEST := "manifest.json"
  const SIGNATURE := "manifest.sig"
  const SCHEMA := "mnc-station-artifact"
  const FORMAT_VERSION := 2

  newtype int64 = x: int | -0x8000_0000_0000_0000 <= x < 0x8000_0000_0000_0000

  datatype Descriptor = Descriptor(size: int64, digest: string, mode: string)

  // `names` are the seven fields that must be identifiers; `dated` says that createdUtc is a UTC timestamp.
  datatype Manifest = Manifest(schema: string, formatVersion: int, names: seq<string>, version: string, dated: bool,
                               entrypoint: string, tftpRoot: string, files: map<string, Descriptor>)

  // ----- Paths ------------------------------------------------------------------------------------

  predicate Control(c: char) {
    c < ' ' || c == '\U{7f}'
  }

  predicate PlainPart(part: string) {
    part != "" && part != "." && part != ".."
  }

  predicate SafePath(p: string) {
    && p != "" && p[0] != '/' && (forall c <- p :: c != '\\' && c != ':' && !Control(c))
    && forall part <- Split(p, '/') :: PlainPart(part)
  }

  method ValidateRelativePath(p: string) returns (ok: bool)
    ensures ok <==> SafePath(p)
  {
    if p == "" || p[0] == '/' {
      return false;
    }
    for i := 0 to |p|
      invariant forall c <- p[..i] :: c != '\\' && c != ':' && !Control(c)
    {
      if p[i] == '\\' || p[i] == ':' || Control(p[i]) {
        assert p[i] in p;
        return false;
      }
      assert p[..i + 1] == p[..i] + [p[i]];
    }
    assert p[..|p|] == p;
    var parts := Split(p, '/');
    for i := 0 to |parts|
      invariant forall part <- parts[..i] :: PlainPart(part)
    {
      if !PlainPart(parts[i]) {
        assert parts[i] in parts;
        return false;
      }
    }
    assert parts[..|parts|] == parts;
    return true;
  }

  // What a file system makes of a path: "." stays, ".." goes up.
  function Resolve(at: seq<string>, parts: seq<string>): seq<string>
    decreases |parts|
  {
    if parts == [] then at
    else
      var next := if parts[0] == "" || parts[0] == "." then at
                  else if parts[0] == ".." then (if at == [] then [] else at[..|at| - 1])
                  else at + [parts[0]];
      Resolve(next, parts[1..])
  }

  lemma {:induction false} PlainResolves(at: seq<string>, parts: seq<string>)
    requires forall part <- parts :: PlainPart(part)
    ensures Resolve(at, parts) == at + parts
    decreases |parts|
  {
    if parts != [] {
      assert PlainPart(parts[0]);
      PlainResolves(at + [parts[0]], parts[1..]);
      assert at + parts == at + [parts[0]] + parts[1..];
    }
  }

  // A safe path stays below every directory it is joined to, and two of them are never the same file.
  lemma SafePathsStayInside(root: seq<string>, p: string, q: string)
    requires SafePath(p) && SafePath(q)
    ensures var target := Resolve(root, Split(p, '/'));
      && |target| > |root| && target[..|root|] == root
      && (target == Resolve(root, Split(q, '/')) ==> p == q)
  {
    PlainResolves(root, Split(p, '/'));
    PlainResolves(root, Split(q, '/'));
    assert (root + Split(p, '/'))[|root|..] == Split(p, '/');
    assert (root + Split(q, '/'))[|root|..] == Split(q, '/');
    assert Join(Split(p, '/'), '/') == p && Join(Split(q, '/'), '/') == q;
  }

  // ----- Manifests ----------------------------------------------------------------------------------

  predicate Identifier(s: string) {
    s != "" && Alphanumeric(s[0]) && forall c <- s :: Alphanumeric(c) || c == '.' || c == '_' || c == '+' || c == '-'
  }

  predicate Sha256(s: string) {
    |s| == 64 && forall c <- s :: '0' <= c <= '9' || 'a' <= c <= 'f'
  }

  predicate SafeDescriptor(path: string, d: Descriptor) {
    path != MANIFEST && path != SIGNATURE && SafePath(path) && d.size >= 0 && Sha256(d.digest) && (d.mode == "0644" || d.mode == "0755")
  }

  predicate HasPrefix(s: string, prefix: string) {
    |prefix| <= |s| && s[..|prefix|] == prefix
  }

  predicate ValidManifest(m: Manifest) {
    && m.schema == SCHEMA && m.formatVersion == FORMAT_VERSION
    && (forall name <- m.names :: Identifier(name))
    && m.version != "" && (forall c <- m.version :: !Control(c)) && m.dated
    && SafePath(m.entrypoint) && (m.tftpRoot != "" ==> SafePath(m.tftpRoot))
    && (forall path <- m.files :: SafeDescriptor(path, m.files[path]))
    && m.entrypoint in m.files && m.files[m.entrypoint].mode == "0755"
    && (m.tftpRoot != "" ==> exists path <- m.files :: HasPrefix(path, m.tftpRoot + "/"))
  }

  // ValidatePayload: as many files as expected, and every expected one as described.
  method ValidatePayload(m: Manifest, actual: map<string, Descriptor>) returns (ok: bool)
    ensures ok <==> actual == m.files
  {
    if |actual| != |m.files| {
      return false;
    }
    var rest := m.files.Keys;
    while rest != {}
      invariant rest <= m.files.Keys
      invariant forall path <- m.files :: path in rest || (path in actual && actual[path] == m.files[path])
      decreases |rest|
    {
      var path :| path in rest;
      if path !in actual || actual[path] != m.files[path] {
        return false;
      }
      rest := rest - {path};
    }
    SubsetBySize(m.files.Keys, actual.Keys);
    assert |m.files.Keys| == |m.files| && |actual.Keys| == |actual|;
    return true;
  }
}
