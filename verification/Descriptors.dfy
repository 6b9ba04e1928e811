/**
 The descriptor graph of an image archive: from `index.json` through verified
 descriptors to every blob, the legacy `manifest.json`, and the closure over the
 archive's regular files.  The hash is an arbitrary function of the content.
 */
module Descriptors {
  import opened Prelude

  datatype Descriptor = Descriptor(
    digest: string, size: int, mediaType: string, architecture: string, os: string,
    refersTo: Option<string>,         // digest an attestation manifest is about
    predicateType: string)

  datatype Legacy = Legacy(config: string, tags: seq<string>, layers: seq<string>)

  /** What a member holds once parsed; `Bytes` is anything else. */
  datatype Content =
    | LayoutDoc(version: string)
    | IndexDoc(schemaVersion: int, indexType: string, manifests: seq<Descriptor>)
    | ManifestDoc(schemaVersion: int, manifestType: string, config: Descriptor, layers: seq<Descriptor>)
    | LegacyDoc(images: seq<Legacy>)
    | Bytes(id: nat)

  datatype Node = Node(isFile: bool, size: int, content: Content)

  datatype Archive = Archive(members: map<string, Node>, hash: Content -> string)

  const OCI_INDEX: string := "application/vnd.oci.image.index.v1+json"
  const OCI_MANIFEST: string := "application/vnd.oci.image.manifest.v1+json"
  const OCI_CONFIG: string := "application/vnd.oci.image.config.v1+json"
  const OCI_LAYER: string := "application/vnd.oci.image.layer.v1.tar+gzip"
  const DOCKER_MANIFEST: string := "application/vnd.docker.distribution.manifest.v2+json"
  const DOCKER_CONFIG: string := "application/vnd.docker.container.image.v1+json"
  const DOCKER_LAYER: string := "application/vnd.docker.image.rootfs.diff.tar.gzip"
  const IN_TOTO: string := "application/vnd.in-toto+json"
  const SLSA: string := "https://slsa.dev/provenance/v1"

  const MAX_INDEX_BYTES: int := 1_048_576
  const MAX_CONFIG_BYTES: int := 8_388_608
  const MAX_MEMBER_BYTES: int := 67_108_864
  const MAX_LAYERS: nat := 256

  const FIXED: set<string> := {"manifest.json", "index.json", "oci-layout"}

  const SHA: string := "sha256:"

  predicate IsDigest(s: string) { SHA <= s && Hex64(s[|SHA|..]) }

  function BlobPath(digest: string): string { "blobs/sha256/" + if SHA <= digest then digest[|SHA|..] else digest }

  function Children(c: Content): seq<Descriptor> {
    match c
    case IndexDoc(_, _, manifests) => manifests
    case ManifestDoc(_, _, config, layers) => [config] + layers
    case _ => []
  }

  // ----- bounded reading -----

  const CHUNK: nat := 1_048_576

  /** Read a member in chunks, never more than one byte past its ceiling; exactly the members within it are returned whole. */
  method ReadBounded(source: seq<nat>, maximum: nat) returns (r: Option<seq<nat>>)
    ensures r == if |source| <= maximum then Some(source) else None
  {
    var payload: seq<nat> := [];
    while true
      invariant |payload| <= maximum && |payload| <= |source| && payload == source[..|payload|]
      decreases |source| - |payload|
    {
      var observed := |payload|;
      var room := maximum - observed + 1;
      var size := if room < CHUNK then room else CHUNK;
      var end := if observed + size < |source| then observed + size else |source|;
      var chunk := source[observed..end];
      if chunk == [] {
        assert source[..|source|] == source;
        return Some(payload);
      }
      SplitAt(source, observed, end);
      if observed + |chunk| > maximum {
        return None;
      }
      payload := payload + chunk;
    }
  }

  // ----- one descriptor -----

  /** The blob is there, a regular file, and path, size and digest all agree. */
  predicate Verified(a: Archive, d: Descriptor) {
    && IsDigest(d.digest) && d.size > 0 && BlobPath(d.digest) in a.members
    && var n := a.members[BlobPath(d.digest)]; n.isFile && n.size == d.size && a.hash(n.content) == d.digest
  }

  function ContentOf(a: Archive, d: Descriptor): Content {
    if BlobPath(d.digest) in a.members then a.members[BlobPath(d.digest)].content else Bytes(0)
  }

  method DescriptorBlob(a: Archive, d: Descriptor, maximum: int) returns (r: Option<Content>)
    ensures r == if Verified(a, d) && d.size <= maximum then Some(ContentOf(a, d)) else None
  {
    if !IsDigest(d.digest) || !(0 < d.size <= maximum) {
      return None;
    }
    var path := BlobPath(d.digest);
    if path !in a.members || !a.members[path].isFile || a.members[path].size != d.size {
      return None;
    }
    if a.hash(a.members[path].content) != d.digest {
      return None;
    }
    return Some(a.members[path].content);
  }

  // ----- reachability -----

  predicate HasIndex(a: Archive) { "index.json" in a.members && a.members["index.json"].isFile }

  predicate Linked(a: Archive, d: Descriptor, next: Descriptor) {
    Verified(a, d) && next in Children(ContentOf(a, d))
  }

  /** A chain of verified descriptors, the first listed in `index.json`, each next one in the blob before it. */
  predicate Chain(a: Archive, ds: seq<Descriptor>) {
    && HasIndex(a) && ds != [] && ds[0] in Children(a.members["index.json"].content)
    && (forall i :: 0 <= i < |ds| ==> Verified(a, ds[i]))
    && (forall i :: 0 <= i < |ds| - 1 ==> Linked(a, ds[i], ds[i + 1]))
  }

  /** Some chain ends with this descriptor. */
  ghost predicate Reaches(a: Archive, d: Descriptor) {
    exists ds: seq<Descriptor> :: Chain(a, ds) && ds[|ds| - 1] == d
  }

  ghost predicate Reachable(a: Archive, path: string) {
    exists d: Descriptor :: Verified(a, d) && Reaches(a, d) && path == BlobPath(d.digest)
  }

  ghost predicate AllReachable(a: Archive, paths: set<string>) { forall p :: p in paths ==> Reachable(a, p) }

  lemma ReachTop(a: Archive, d: Descriptor)
    requires HasIndex(a) && d in Children(a.members["index.json"].content) && Verified(a, d)
    ensures Reaches(a, d)
  {
    hide Verified;
    assert Chain(a, [d]);
    assert [d][|[d]| - 1] == d;
  }

  lemma ReachChild(a: Archive, parent: Descriptor, d: Descriptor)
    requires Verified(a, parent) && Reaches(a, parent) && Verified(a, d) && d in Children(ContentOf(a, parent))
    ensures Reaches(a, d)
  {
    var ds: seq<Descriptor> :| Chain(a, ds) && ds[|ds| - 1] == parent;
    ChainGrows(a, ds, d);
    hide Chain, Verified;
    assert (ds + [d])[|ds + [d]| - 1] == d;
  }

  lemma ChainGrows(a: Archive, ds: seq<Descriptor>, d: Descriptor)
    requires Chain(a, ds) && Verified(a, d) && d in Children(ContentOf(a, ds[|ds| - 1]))
    ensures Chain(a, ds + [d])
  {
    hide Verified, Children;
    var more := ds + [d];
    assert more[0] == ds[0];
    forall i | 0 <= i < |more|
      ensures Verified(a, more[i])
    {
      if i < |ds| { assert more[i] == ds[i]; }
    }
    forall i | 0 <= i < |more| - 1
      ensures Linked(a, more[i], more[i + 1])
    {
      if i + 1 < |ds| {
        assert Linked(a, ds[i], ds[i + 1]) && more[i] == ds[i] && more[i + 1] == ds[i + 1];
      } else {
        assert more[i] == ds[|ds| - 1] && more[i + 1] == d;
      }
    }
  }

  // ----- the image manifest -----

  predicate MediaTypesOk(c: Content) {
    && c.ManifestDoc? && c.schemaVersion == 2 && 1 <= |c.layers| <= MAX_LAYERS
    && (if c.manifestType == OCI_MANIFEST then
          c.config.mediaType == OCI_CONFIG && forall i :: 0 <= i < |c.layers| ==> c.layers[i].mediaType == OCI_LAYER
        else
          c.manifestType == DOCKER_MANIFEST && c.config.mediaType == DOCKER_CONFIG &&
          forall i :: 0 <= i < |c.layers| ==> c.layers[i].mediaType == DOCKER_LAYER)
  }

  /** Verified and no larger than `maximum`. */
  predicate Within(a: Archive, d: Descriptor, maximum: int) { Verified(a, d) && d.size <= maximum }

  function PathSet(ds: seq<Descriptor>): set<string> {
    if ds == [] then {} else PathSet(ds[..|ds| - 1]) + {BlobPath(ds[|ds| - 1].digest)}
  }

  /** The blobs a manifest refers to. */
  function ManifestPaths(c: Content): set<string> {
    if c.ManifestDoc? then {BlobPath(c.config.digest)} + PathSet(c.layers) else {}
  }

  function Paths(ds: seq<Descriptor>): seq<string> {
    if ds == [] then [] else Paths(ds[..|ds| - 1]) + [BlobPath(ds[|ds| - 1].digest)]
  }

  /** The path under which the blob with this digest is stored: the 64 digits after "sha256:". */
  predicate StoredAt(path: string, d: Descriptor) { |d.digest| == 71 && path == "blobs/sha256/" + d.digest[7..] }

  predicate AllStoredAt(paths: seq<string>, ds: seq<Descriptor>) {
    |paths| == |ds| && forall i :: 0 <= i < |ds| ==> StoredAt(paths[i], ds[i])
  }

  lemma DigestPath(d: Descriptor)
    requires IsDigest(d.digest)
    ensures StoredAt(BlobPath(d.digest), d)
  {
    assert |SHA| == 7;
  }

  /** The i-th path is that of the i-th descriptor. */
  lemma {:induction false} PathsInOrder(ds: seq<Descriptor>)
    requires forall i :: 0 <= i < |ds| ==> IsDigest(ds[i].digest)
    ensures AllStoredAt(Paths(ds), ds)
  {
    hide BlobPath, IsDigest, StoredAt;
    if ds != [] {
      var n := |ds| - 1;
      PathsInOrder(ds[..n]);
      DigestPath(ds[n]);
    }
  }

  lemma StoredOnce(p: string, q: string, d: Descriptor)
    requires StoredAt(p, d) && StoredAt(q, d)
    ensures p == q
  {
  }

  /** And no other list of paths is. */
  lemma {:induction false} PathsUnique(paths: seq<string>, ds: seq<Descriptor>)
    requires (forall i :: 0 <= i < |ds| ==> IsDigest(ds[i].digest)) && AllStoredAt(paths, ds)
    ensures paths == Paths(ds)
  {
    PathsInOrder(ds);
    hide IsDigest, Paths, StoredAt;
    forall i | 0 <= i < |ds|
      ensures paths[i] == Paths(ds)[i]
    {
      assert StoredAt(paths[i], ds[i]) && StoredAt(Paths(ds)[i], ds[i]);
      StoredOnce(paths[i], Paths(ds)[i], ds[i]);
    }
  }

  predicate ManifestOk(a: Archive, c: Content) {
    && c.ManifestDoc? && MediaTypesOk(c) && Within(a, c.config, MAX_CONFIG_BYTES)
    && forall i :: 0 <= i < |c.layers| ==> Within(a, c.layers[i], MAX_MEMBER_BYTES)
  }

  lemma ManifestDigests(a: Archive, c: Content)
    requires ManifestOk(a, c)
    ensures IsDigest(c.config.digest) && forall i :: 0 <= i < |c.layers| ==> IsDigest(c.layers[i].digest)
  {
    hide IsDigest, MediaTypesOk;
    forall i | 0 <= i < |c.layers|
      ensures IsDigest(c.layers[i].digest)
    {
      assert Within(a, c.layers[i], MAX_MEMBER_BYTES);
    }
  }

  /** Config and layers of the image: their paths, the layers in order, join the referenced set. */
  method CheckManifest(a: Archive, c: Content, referenced: set<string>)
    returns (r: Option<(string, seq<string>)>, after: set<string>)
    ensures r.Some? <==> ManifestOk(a, c)
    ensures r.Some? ==> r.value == (BlobPath(c.config.digest), Paths(c.layers)) && after == referenced + ManifestPaths(c)
    ensures r.Some? ==> StoredAt(r.value.0, c.config) && AllStoredAt(r.value.1, c.layers)
  {
    hide Verified, BlobPath, StoredAt, AllStoredAt, IsDigest;
    r, after := None, referenced;
    if !c.ManifestDoc? || !MediaTypesOk(c) {
      return;
    }
    var config := DescriptorBlob(a, c.config, MAX_CONFIG_BYTES);
    if config.None? {
      return;
    }
    after := after + {BlobPath(c.config.digest)};
    ghost var start := after;
    var layers: seq<string>, ds := [], c.layers;
    assert ds[..0] == [];
    for i := 0 to |ds|
      invariant layers == Paths(ds[..i]) && after == start + PathSet(ds[..i])
      invariant forall j :: 0 <= j < i ==> Within(a, ds[j], MAX_MEMBER_BYTES)
    {
      hide MediaTypesOk;
      assert ds[..i + 1][..i] == ds[..i];
      var layer := DescriptorBlob(a, ds[i], MAX_MEMBER_BYTES);
      if layer.None? {
        return;
      }
      after := after + {BlobPath(ds[i].digest)};
      layers := layers + [BlobPath(ds[i].digest)];
    }
    assert ds[..|ds|] == ds;
    ManifestDigests(a, c);
    DigestPath(c.config);
    PathsInOrder(ds);
    r := Some((BlobPath(c.config.digest), layers));
  }

  // ----- attestations -----

  predicate AttestationShape(d: Descriptor, image: Descriptor) {
    d.mediaType == OCI_MANIFEST && d.architecture == "unknown" && d.os == "unknown" && d.refersTo == Some(image.digest)
  }

  predicate AttestationContent(c: Content) {
    c.ManifestDoc? && c.schemaVersion == 2 && c.manifestType == OCI_MANIFEST && |c.layers| == 1 &&
    c.layers[0].mediaType == IN_TOTO && c.layers[0].predicateType == SLSA
  }

  predicate AttestationOk(a: Archive, d: Descriptor, image: Descriptor) {
    && AttestationShape(d, image) && Within(a, d, MAX_INDEX_BYTES)
    && var c := ContentOf(a, d);
       AttestationContent(c) && Within(a, c.config, MAX_CONFIG_BYTES) && Within(a, c.layers[0], MAX_CONFIG_BYTES)
  }

  method CheckAttestation(a: Archive, d: Descriptor, image: Descriptor, referenced: set<string>)
    returns (ok: bool, after: set<string>)
    ensures ok <==> AttestationOk(a, d, image)
    ensures ok ==> after == referenced + {BlobPath(d.digest)} + ManifestPaths(ContentOf(a, d))
  {
    hide Verified, BlobPath;
    ok, after := false, referenced;
    if !AttestationShape(d, image) {
      return;
    }
    var content := DescriptorBlob(a, d, MAX_INDEX_BYTES);
    if content.None? || !AttestationContent(content.value) {
      return;
    }
    after := after + {BlobPath(d.digest)};
    var config, statement := content.value.config, content.value.layers[0];
    var one := DescriptorBlob(a, config, MAX_CONFIG_BYTES);
    if one.None? {
      return;
    }
    after := after + {BlobPath(config.digest)};
    var two := DescriptorBlob(a, statement, MAX_CONFIG_BYTES);
    if two.None? {
      return;
    }
    after := after + {BlobPath(statement.digest)};
    OneLayer(content.value);
    ok := true;
  }

  lemma OneLayer(c: Content)
    requires AttestationContent(c)
    ensures ManifestPaths(c) == {BlobPath(c.config.digest), BlobPath(c.layers[0].digest)}
  {
    assert c.layers == [c.layers[0]] && c.layers[..0] == [];
    assert PathSet(c.layers) == PathSet(c.layers[..0]) + {BlobPath(c.layers[0].digest)};
  }

  // ----- the whole archive -----

  predicate IsImage(d: Descriptor) { d.architecture == "amd64" && d.os == "linux" && d.mediaType == OCI_MANIFEST }

  /** Descriptors of an index that are the image, and the others. */
  function Images(ds: seq<Descriptor>): seq<Descriptor> {
    if ds == [] then [] else (if IsImage(ds[0]) then [ds[0]] else []) + Images(ds[1..])
  }

  function Others(ds: seq<Descriptor>): seq<Descriptor> {
    if ds == [] then [] else (if IsImage(ds[0]) then [] else [ds[0]]) + Others(ds[1..])
  }

  lemma {:induction false} Split(ds: seq<Descriptor>)
    ensures forall d :: d in ds <==> d in Images(ds) || d in Others(ds)
  {
    if ds != [] {
      Split(ds[1..]);
      assert ds == [ds[0]] + ds[1..];
    }
  }

  predicate BoundedFile(a: Archive, name: string) {
    name in a.members && a.members[name].isFile && 0 < a.members[name].size <= MAX_INDEX_BYTES
  }

  function RegularNames(a: Archive): set<string> { set n | n in a.members && a.members[n].isFile }

  predicate LegacyOk(a: Archive, imageRef: string, config: string, layers: seq<string>) {
    && BoundedFile(a, "manifest.json")
    && var c := a.members["manifest.json"].content;
       c.LegacyDoc? && |c.images| == 1 && c.images[0] == Legacy(config, [imageRef], layers) &&
       1 <= |layers| <= MAX_LAYERS && forall i, j :: 0 <= i < j < |layers| ==> layers[i] != layers[j]
  }

  /** The single descriptor of the top-level index. */
  predicate TopOk(a: Archive) {
    && BoundedFile(a, "oci-layout") && BoundedFile(a, "index.json") && a.members["oci-layout"].content == LayoutDoc("1.0.0")
    && var top := a.members["index.json"].content;
       top.IndexDoc? && top.schemaVersion == 2 && top.indexType == OCI_INDEX && |top.manifests| == 1
  }

  predicate InnerIndexOk(c: Content) {
    c.IndexDoc? && c.schemaVersion == 2 && c.indexType == OCI_INDEX && 1 <= |c.manifests| <= 2 &&
    |Images(c.manifests)| == 1 && |Others(c.manifests)| <= 1
  }

  datatype Found = Found(image: Descriptor, content: Content, attestations: seq<Descriptor>)

  function Outer(a: Archive): Descriptor
    requires TopOk(a)
  {
    a.members["index.json"].content.manifests[0]
  }

  /** The image and its attestations, if the two index levels are in order. */
  function ImageOf(a: Archive): Option<Found> {
    if !TopOk(a) || !Within(a, Outer(a), MAX_INDEX_BYTES) then None
    else
      var outer := Outer(a);
      var c := ContentOf(a, outer);
      if outer.mediaType == DOCKER_MANIFEST then Some(Found(outer, c, []))
      else if outer.mediaType != OCI_INDEX || !InnerIndexOk(c) || !Within(a, Images(c.manifests)[0], MAX_INDEX_BYTES) then None
      else Some(Found(Images(c.manifests)[0], ContentOf(a, Images(c.manifests)[0]), Others(c.manifests)))
  }

  method FindImage(a: Archive) returns (r: Option<Found>, referenced: set<string>)
    ensures r == ImageOf(a)
    ensures r.Some? ==> TopOk(a) && referenced == {BlobPath(Outer(a).digest), BlobPath(r.value.image.digest)}
  {
    hide Verified, BlobPath, Images, Others;
    r, referenced := None, {};
    if !TopOk(a) {
      return;
    }
    var outer := a.members["index.json"].content.manifests[0];
    var content := DescriptorBlob(a, outer, MAX_INDEX_BYTES);
    if content.None? {
      return;
    }
    referenced := {BlobPath(outer.digest)};
    if outer.mediaType == DOCKER_MANIFEST {
      r := Some(Found(outer, content.value, []));
      return;
    }
    if outer.mediaType != OCI_INDEX || !InnerIndexOk(content.value) {
      return;
    }
    var image := Images(content.value.manifests)[0];
    var inner := DescriptorBlob(a, image, MAX_INDEX_BYTES);
    if inner.Some? {
      referenced := referenced + {BlobPath(image.digest)};
      r := Some(Found(image, inner.value, Others(content.value.manifests)));
    }
  }

  /** Blobs of the attestations. */
  function AttestationPaths(a: Archive, ds: seq<Descriptor>): set<string> {
    if ds == [] then {}
    else
      var d := ds[|ds| - 1];
      AttestationPaths(a, ds[..|ds| - 1]) + {BlobPath(d.digest)} + ManifestPaths(ContentOf(a, d))
  }

  /** Everything referenced from index.json, once all descriptors have been verified. */
  function Referenced(a: Archive, f: Found): set<string>
    requires TopOk(a)
  {
    {BlobPath(Outer(a).digest), BlobPath(f.image.digest)} + ManifestPaths(f.content)
      + AttestationPaths(a, f.attestations)
  }

  /** The archive passes: indexes, manifest and attestations verified, legacy index equal, no other regular file. */
  predicate GraphOk(a: Archive, imageRef: string) {
    && ImageOf(a).Some? && TopOk(a)
    && var f := ImageOf(a).value;
       && ManifestOk(a, f.content) && (forall i :: 0 <= i < |f.attestations| ==> AttestationOk(a, f.attestations[i], f.image))
       && LegacyOk(a, imageRef, BlobPath(f.content.config.digest), Paths(f.content.layers))
       && RegularNames(a) == FIXED + Referenced(a, f)
  }

  // ----- acceptance, spelled out -----

  /** The blob that the descriptor names is there, and neither larger than `limit` nor anything else than it says. */
  predicate Blob(a: Archive, d: Descriptor, limit: int) {
    && |d.digest| == 71 && d.digest[..7] == "sha256:"
    && (forall i :: 7 <= i < 71 ==> '0' <= d.digest[i] <= '9' || 'a' <= d.digest[i] <= 'f')
    && var path := "blobs/sha256/" + d.digest[7..];
       && path in a.members && a.members[path].isFile && a.hash(a.members[path].content) == d.digest
       && 1 <= a.members[path].size == d.size <= limit
  }

  lemma BlobExactly(a: Archive, d: Descriptor, limit: int)
    ensures Within(a, d, limit) <==> Blob(a, d, limit)
  {
    assert |SHA| == 7;
    if |d.digest| == 71 {
      var digits := d.digest[7..];
      assert forall i :: 0 <= i < 64 ==> digits[i] == d.digest[i + 7];
      assert forall i :: 7 <= i < 71 ==> d.digest[i] == digits[i - 7];
      assert SHA <= d.digest <==> d.digest[..7] == "sha256:";
    }
  }

  /** Media type of the manifest, of its config and of each of its layers. */
  predicate Typed(c: Content, manifest: string, config: string, layer: string) {
    c.ManifestDoc? && c.manifestType == manifest && c.config.mediaType == config &&
    forall i :: 0 <= i < |c.layers| ==> c.layers[i].mediaType == layer
  }

  /** An image manifest of either family, whose config and layers are all there. */
  predicate ImageRight(a: Archive, c: Content) {
    && c.ManifestDoc? && c.schemaVersion == 2 && 1 <= |c.layers| <= 256
    && (|| Typed(c, "application/vnd.oci.image.manifest.v1+json", "application/vnd.oci.image.config.v1+json",
                 "application/vnd.oci.image.layer.v1.tar+gzip")
        || Typed(c, "application/vnd.docker.distribution.manifest.v2+json", "application/vnd.docker.container.image.v1+json",
                 "application/vnd.docker.image.rootfs.diff.tar.gzip"))
    && Blob(a, c.config, 8_388_608) && forall i :: 0 <= i < |c.layers| ==> Blob(a, c.layers[i], 67_108_864)
  }

  lemma ImageExactly(a: Archive, c: Content)
    ensures ManifestOk(a, c) <==> ImageRight(a, c)
  {
    hide Within, Blob;
    if c.ManifestDoc? {
      BlobExactly(a, c.config, MAX_CONFIG_BYTES);
      forall i | 0 <= i < |c.layers|
        ensures Within(a, c.layers[i], MAX_MEMBER_BYTES) <==> Blob(a, c.layers[i], 67_108_864)
      {
        BlobExactly(a, c.layers[i], MAX_MEMBER_BYTES);
      }
      assert OCI_MANIFEST != DOCKER_MANIFEST by { assert OCI_MANIFEST[16] != DOCKER_MANIFEST[16]; }
    }
  }

  /** A provenance statement about the image. */
  predicate AttestationRight(a: Archive, d: Descriptor, image: Descriptor) {
    && d.mediaType == "application/vnd.oci.image.manifest.v1+json" && d.architecture == d.os == "unknown"
    && d.refersTo == Some(image.digest) && Blob(a, d, 1_048_576)
    && var c := a.members["blobs/sha256/" + d.digest[7..]].content;
       && c.ManifestDoc? && c.schemaVersion == 2 && c.manifestType == "application/vnd.oci.image.manifest.v1+json"
       && |c.layers| == 1 && c.layers[0].mediaType == "application/vnd.in-toto+json"
       && c.layers[0].predicateType == "https://slsa.dev/provenance/v1"
       && Blob(a, c.config, 8_388_608) && Blob(a, c.layers[0], 8_388_608)
  }

  lemma ContentAt(a: Archive, d: Descriptor, limit: int)
    requires Blob(a, d, limit)
    ensures ContentOf(a, d) == a.members["blobs/sha256/" + d.digest[7..]].content
  {
    BlobExactly(a, d, limit);
    DigestPath(d);
  }

  lemma AttestationExactly(a: Archive, d: Descriptor, image: Descriptor)
    ensures AttestationOk(a, d, image) <==> AttestationRight(a, d, image)
  {
    BlobExactly(a, d, MAX_INDEX_BYTES);
    if Blob(a, d, MAX_INDEX_BYTES) {
      ContentAt(a, d, MAX_INDEX_BYTES);
      var c := ContentOf(a, d);
      if c.ManifestDoc? {
        BlobExactly(a, c.config, MAX_CONFIG_BYTES);
        if |c.layers| == 1 {
          BlobExactly(a, c.layers[0], MAX_CONFIG_BYTES);
        }
      }
    }
    hide Within, Blob, ContentOf;
  }

  /** A regular file of 1 to 1,048,576 bytes with this content. */
  predicate FileOf(a: Archive, name: string, c: Content) {
    name in a.members && a.members[name].isFile && 1 <= a.members[name].size <= 1_048_576 && a.members[name].content == c
  }

  predicate Linux(d: Descriptor) {
    d.architecture == "amd64" && d.os == "linux" && d.mediaType == "application/vnd.oci.image.manifest.v1+json"
  }

  /** The descriptors of an image index: one image, and at most one other, in either order. */
  predicate OneImage(ds: seq<Descriptor>, image: Descriptor, others: seq<Descriptor>) {
    && Linux(image) && |others| <= 1 && (forall i :: 0 <= i < |others| ==> !Linux(others[i]))
    && (ds == [image] + others || ds == others + [image])
  }

  /** The image is the one descriptor of `index.json`, or the one image of the index that this names. */
  predicate Pointed(a: Archive, outer: Descriptor, image: Descriptor, others: seq<Descriptor>) {
    && FileOf(a, "oci-layout", LayoutDoc("1.0.0"))
    && FileOf(a, "index.json", IndexDoc(2, "application/vnd.oci.image.index.v1+json", [outer]))
    && Blob(a, outer, 1_048_576) && Blob(a, image, 1_048_576)
    && (|| (outer.mediaType == "application/vnd.docker.distribution.manifest.v2+json" && image == outer && others == [])
        || (outer.mediaType == "application/vnd.oci.image.index.v1+json" &&
            var c := a.members["blobs/sha256/" + outer.digest[7..]].content;
            c.IndexDoc? && c.schemaVersion == 2 && c.indexType == "application/vnd.oci.image.index.v1+json" &&
            OneImage(c.manifests, image, others)))
  }

  /** The two lists of an index of one or two descriptors. */
  lemma {:induction false} ListsOf(ds: seq<Descriptor>)
    ensures ds == [] ==> Images(ds) == [] && Others(ds) == []
    ensures |ds| == 1 ==> Images(ds) == (if IsImage(ds[0]) then [ds[0]] else []) && Others(ds) == if IsImage(ds[0]) then [] else [ds[0]]
    ensures |ds| == 2 && IsImage(ds[0]) && !IsImage(ds[1]) ==> Images(ds) == [ds[0]] && Others(ds) == [ds[1]]
    ensures |ds| == 2 && !IsImage(ds[0]) && IsImage(ds[1]) ==> Images(ds) == [ds[1]] && Others(ds) == [ds[0]]
    ensures |ds| == 2 && (IsImage(ds[0]) <==> IsImage(ds[1])) ==> |Images(ds)| != 1
  {
    hide IsImage;
    if ds != [] {
      ListsOf(ds[1..]);
    }
  }

  lemma {:induction false} OneImageExactly(ds: seq<Descriptor>, image: Descriptor, others: seq<Descriptor>)
    ensures 1 <= |ds| <= 2 && Images(ds) == [image] && Others(ds) == others && |others| <= 1 <==> OneImage(ds, image, others)
  {
    ListsOf(ds);
    assert forall d :: IsImage(d) <==> Linux(d);
    hide Images, Others, IsImage, Linux;
    if others == [] {
      assert [image] + others == [image] && others + [image] == [image];
      assert |ds| == 1 ==> ds == [ds[0]];
    } else if |others| == 1 {
      assert [image] + others == [image, others[0]] && others + [image] == [others[0], image] && others == [others[0]];
      assert |ds| == 2 ==> ds == [ds[0], ds[1]];
    }
  }

  lemma {:induction false} PointedExactly(a: Archive, outer: Descriptor, image: Descriptor, others: seq<Descriptor>)
    ensures TopOk(a) && Outer(a) == outer && ImageOf(a) == Some(Found(image, ContentOf(a, image), others)) <==>
      Pointed(a, outer, image, others)
  {
    BlobExactly(a, outer, MAX_INDEX_BYTES);
    BlobExactly(a, image, MAX_INDEX_BYTES);
    assert OCI_INDEX != DOCKER_MANIFEST by { assert OCI_INDEX[16] != DOCKER_MANIFEST[16]; }
    if Blob(a, outer, MAX_INDEX_BYTES) {
      ContentAt(a, outer, MAX_INDEX_BYTES);
      var c := ContentOf(a, outer);
      if c.IndexDoc? {
        OneImageExactly(c.manifests, image, others);
      }
    }
    hide Within, Blob, ContentOf, Images, Others, OneImage;
  }

  /** The legacy index: one image with this tag, its config and its layers in the order of the image manifest. */
  predicate LegacyRight(a: Archive, imageRef: string, config: Descriptor, layers: seq<Descriptor>) {
    && "manifest.json" in a.members && a.members["manifest.json"].content.LegacyDoc?
    && |a.members["manifest.json"].content.images| == 1
    && var listed := a.members["manifest.json"].content.images[0];
       && FileOf(a, "manifest.json", LegacyDoc([listed])) && listed.tags == [imageRef]
       && StoredAt(listed.config, config) && AllStoredAt(listed.layers, layers)
       && forall i, j :: 0 <= i < j < |layers| ==> layers[i].digest != layers[j].digest
  }

  lemma {:induction false} LegacyExactly(a: Archive, imageRef: string, config: Descriptor, layers: seq<Descriptor>)
    requires IsDigest(config.digest) && (forall i :: 0 <= i < |layers| ==> IsDigest(layers[i].digest)) && 1 <= |layers| <= MAX_LAYERS
    ensures LegacyOk(a, imageRef, BlobPath(config.digest), Paths(layers)) <==> LegacyRight(a, imageRef, config, layers)
  {
    DigestPath(config);
    PathsInOrder(layers);
    DistinctPaths(layers);
    if LegacyRight(a, imageRef, config, layers) {
      PathsUnique(a.members["manifest.json"].content.images[0].layers, layers);
    }
    hide IsDigest, BlobPath, Paths, AllStoredAt;
    if BoundedFile(a, "manifest.json") {
      var c := a.members["manifest.json"].content;
      assert c.LegacyDoc? && |c.images| == 1 ==> c == LegacyDoc([c.images[0]]);
    }
  }

  /** Paths differ exactly where digests do. */
  lemma {:induction false} DistinctPaths(ds: seq<Descriptor>)
    requires forall i :: 0 <= i < |ds| ==> IsDigest(ds[i].digest)
    ensures (forall i, j :: 0 <= i < j < |Paths(ds)| ==> Paths(ds)[i] != Paths(ds)[j]) <==>
      |Paths(ds)| == |ds| && forall i, j :: 0 <= i < j < |ds| ==> ds[i].digest != ds[j].digest
  {
    PathsInOrder(ds);
    hide Paths;
    forall i, j | 0 <= i < j < |ds|
      ensures Paths(ds)[i] == Paths(ds)[j] <==> ds[i].digest == ds[j].digest
    {
      assert StoredAt(Paths(ds)[i], ds[i]) && StoredAt(Paths(ds)[j], ds[j]);
      SamePath(ds[i], ds[j], Paths(ds)[i], Paths(ds)[j]);
    }
  }

  lemma SamePath(d: Descriptor, e: Descriptor, p: string, q: string)
    requires IsDigest(d.digest) && IsDigest(e.digest) && StoredAt(p, d) && StoredAt(q, e)
    ensures p == q <==> d.digest == e.digest
  {
    assert p[13..] == d.digest[7..] && q[13..] == e.digest[7..];
    assert d.digest == SHA + d.digest[7..] && e.digest == SHA + e.digest[7..];
  }

  /** Every regular file is one of the three indexes or some blob's, and each blob named has its file. */
  ghost predicate NothingElse(a: Archive, outer: Descriptor, image: Descriptor, manifest: Content, attestations: seq<Descriptor>)
    requires manifest.ManifestDoc?
  {
    forall n {:trigger n in a.members} :: n in a.members && a.members[n].isFile <==>
      || n in {"manifest.json", "index.json", "oci-layout"} || n in {BlobPath(outer.digest), BlobPath(image.digest)}
      || n in ManifestPaths(manifest) || n in AttestationPaths(a, attestations)
  }

  lemma ClosureExactly(a: Archive, f: Found)
    requires TopOk(a) && f.content.ManifestDoc?
    ensures RegularNames(a) == FIXED + Referenced(a, f) <==> NothingElse(a, Outer(a), f.image, f.content, f.attestations)
  {
    hide TopOk, BlobPath, ManifestPaths, AttestationPaths, Outer;
    var named := FIXED + Referenced(a, f);
    forall n
      ensures n in named <==>
        || n in {"manifest.json", "index.json", "oci-layout"} || n in {BlobPath(Outer(a).digest), BlobPath(f.image.digest)}
        || n in ManifestPaths(f.content) || n in AttestationPaths(a, f.attestations)
    {
    }
    if NothingElse(a, Outer(a), f.image, f.content, f.attestations) {
      assert forall n :: n in RegularNames(a) <==> n in named;
    }
  }

  /** What the pass accepts, with the descriptors it followed. */
  ghost predicate AcceptedAs(a: Archive, imageRef: string, outer: Descriptor, image: Descriptor, attestations: seq<Descriptor>) {
    && Pointed(a, outer, image, attestations)
    && var m := a.members["blobs/sha256/" + image.digest[7..]].content;
       && ImageRight(a, m) && (forall i :: 0 <= i < |attestations| ==> AttestationRight(a, attestations[i], image))
       && LegacyRight(a, imageRef, m.config, m.layers) && NothingElse(a, outer, image, m, attestations)
  }

  /** Acceptance is exact, and says of the legacy index layer by layer what it holds. */
  lemma {:induction false} GraphExactly(a: Archive, imageRef: string)
    ensures GraphOk(a, imageRef) <==> exists outer, image, attestations :: AcceptedAs(a, imageRef, outer, image, attestations)
  {
    if GraphOk(a, imageRef) {
      var f := ImageOf(a).value;
      FoundContent(a);
      GraphAs(a, imageRef, Outer(a), f.image, f.attestations);
    }
    if exists outer, image, attestations :: AcceptedAs(a, imageRef, outer, image, attestations) {
      var outer, image, attestations :| AcceptedAs(a, imageRef, outer, image, attestations);
      GraphAs(a, imageRef, outer, image, attestations);
    }
  }

  lemma FoundContent(a: Archive)
    requires ImageOf(a).Some?
    ensures TopOk(a) && ImageOf(a).value.content == ContentOf(a, ImageOf(a).value.image)
  {
    hide Within, Images, Others;
  }

  lemma {:induction false} GraphAs(a: Archive, imageRef: string, outer: Descriptor, image: Descriptor, attestations: seq<Descriptor>)
    ensures GraphOk(a, imageRef) && Outer(a) == outer && ImageOf(a).value.image == image && ImageOf(a).value.attestations == attestations
      <==> AcceptedAs(a, imageRef, outer, image, attestations)
  {
    PointedExactly(a, outer, image, attestations);
    if ImageOf(a).Some? {
      FoundContent(a);
    }
    if Pointed(a, outer, image, attestations) {
      ContentAt(a, image, 1_048_576);
      var m := ContentOf(a, image);
      ImageExactly(a, m);
      forall i | 0 <= i < |attestations|
        ensures AttestationOk(a, attestations[i], image) <==> AttestationRight(a, attestations[i], image)
      {
        AttestationExactly(a, attestations[i], image);
      }
      if ManifestOk(a, m) {
        ManifestDigests(a, m);
        LegacyExactly(a, imageRef, m.config, m.layers);
        ClosureExactly(a, Found(image, m, attestations));
      }
    }
    hide TopOk, Referenced, RegularNames, NothingElse, Pointed, ImageOf, ContentOf, BlobPath, Paths;
    hide ManifestOk, ImageRight, AttestationOk, AttestationRight, LegacyOk, LegacyRight;
  }

  /** The descriptor pass and the closure over the regular files. */
  method InspectGraph(a: Archive, imageRef: string) returns (ok: bool)
    ensures ok <==> GraphOk(a, imageRef)
    ensures ok <==> exists outer, image, attestations :: AcceptedAs(a, imageRef, outer, image, attestations)
  {
    GraphExactly(a, imageRef);
    hide AcceptedAs, StoredAt, AllStoredAt, Verified, BlobPath, ManifestOk, AttestationOk, LegacyOk, Paths, ManifestPaths, ImageOf;
    ok := false;
    var found, referenced := FindImage(a);
    if found.None? {
      return;
    }
    var f := found.value;
    var manifest;
    manifest, referenced := CheckManifest(a, f.content, referenced);
    if manifest.None? {
      return;
    }
    ghost var start := referenced;
    assert f.attestations[..0] == [];
    for i := 0 to |f.attestations|
      invariant forall j :: 0 <= j < i ==> AttestationOk(a, f.attestations[j], f.image)
      invariant referenced == start + AttestationPaths(a, f.attestations[..i])
    {
      assert f.attestations[..i + 1][..i] == f.attestations[..i];
      var one;
      one, referenced := CheckAttestation(a, f.attestations[i], f.image, referenced);
      if !one {
        return;
      }
    }
    assert f.attestations[..|f.attestations|] == f.attestations;
    ok := LegacyOk(a, imageRef, manifest.value.0, manifest.value.1) && RegularNames(a) == FIXED + referenced;
  }

  // ----- what acceptance means -----

  lemma ReachPath(a: Archive, d: Descriptor)
    requires Verified(a, d) && Reaches(a, d)
    ensures AllReachable(a, {BlobPath(d.digest)})
  {
    hide Verified, Reaches, BlobPath;
    assert Reachable(a, BlobPath(d.digest));
  }

  lemma UnionReachable(a: Archive, s: set<string>, t: set<string>)
    requires AllReachable(a, s) && AllReachable(a, t)
    ensures AllReachable(a, s + t)
  {
    hide Reachable;
  }

  lemma InnerChildren(c: Content)
    requires InnerIndexOk(c)
    ensures Images(c.manifests)[0] in Children(c)
    ensures forall i :: 0 <= i < |Others(c.manifests)| ==> Others(c.manifests)[i] in Children(c)
  {
    Split(c.manifests);
    assert Images(c.manifests)[0] in Images(c.manifests);
    assert forall i :: 0 <= i < |Others(c.manifests)| ==> Others(c.manifests)[i] in Others(c.manifests);
    hide Images, Others;
  }

  lemma LayerIsChild(c: Content, i: nat)
    requires c.ManifestDoc? && i < |c.layers|
    ensures c.layers[i] in Children(c)
  {
    assert ([c.config] + c.layers)[i + 1] == c.layers[i];
  }

  /** All blobs of a manifest that was reached, once each is verified. */
  lemma ManifestReachable(a: Archive, parent: Descriptor, c: Content)
    requires Verified(a, parent) && Reaches(a, parent) && c == ContentOf(a, parent) && c.ManifestDoc?
    requires Verified(a, c.config) && forall i :: 0 <= i < |c.layers| ==> Verified(a, c.layers[i])
    ensures AllReachable(a, ManifestPaths(c))
  {
    assert c.config in Children(c);
    hide Verified, BlobPath, Reaches, AllReachable, Children, ContentOf, PathSet;
    ReachChild(a, parent, c.config);
    ReachPath(a, c.config);
    forall i | 0 <= i < |c.layers|
      ensures c.layers[i] in Children(c)
    {
      LayerIsChild(c, i);
    }
    ChildrenReachable(a, parent, c.layers);
    UnionReachable(a, {BlobPath(c.config.digest)}, PathSet(c.layers));
  }

  lemma {:induction false} ChildrenReachable(a: Archive, parent: Descriptor, ds: seq<Descriptor>)
    requires Verified(a, parent) && Reaches(a, parent)
    requires forall i :: 0 <= i < |ds| ==> Verified(a, ds[i]) && ds[i] in Children(ContentOf(a, parent))
    ensures AllReachable(a, PathSet(ds))
  {
    if ds != [] {
      hide Verified, BlobPath, Reaches, AllReachable, Children, ContentOf;
      var init, d := ds[..|ds| - 1], ds[|ds| - 1];
      ChildrenReachable(a, parent, init);
      ReachChild(a, parent, d);
      ReachPath(a, d);
      UnionReachable(a, PathSet(init), {BlobPath(d.digest)});
    }
  }

  lemma AttestationVerified(a: Archive, d: Descriptor, image: Descriptor)
    requires AttestationOk(a, d, image)
    ensures Verified(a, d) && ContentOf(a, d).ManifestDoc? && Verified(a, ContentOf(a, d).config)
    ensures forall i :: 0 <= i < |ContentOf(a, d).layers| ==> Verified(a, ContentOf(a, d).layers[i])
  {
    hide Verified;
  }

  lemma {:induction false} AttestationsReachable(a: Archive, parent: Descriptor, ds: seq<Descriptor>, image: Descriptor)
    requires Verified(a, parent) && Reaches(a, parent)
    requires forall i :: 0 <= i < |ds| ==> AttestationOk(a, ds[i], image) && ds[i] in Children(ContentOf(a, parent))
    ensures AllReachable(a, AttestationPaths(a, ds))
  {
    if ds != [] {
      hide Verified, BlobPath, Reaches, AllReachable, Children, AttestationOk, ManifestPaths, ContentOf;
      var d := ds[|ds| - 1];
      AttestationsReachable(a, parent, ds[..|ds| - 1], image);
      AttestationVerified(a, d, image);
      ReachChild(a, parent, d);
      ReachPath(a, d);
      ManifestReachable(a, d, ContentOf(a, d));
      UnionReachable(a, AttestationPaths(a, ds[..|ds| - 1]), {BlobPath(d.digest)});
      UnionReachable(a, AttestationPaths(a, ds[..|ds| - 1]) + {BlobPath(d.digest)}, ManifestPaths(ContentOf(a, d)));
    }
  }

  /** The image and its attestations hang below the outer descriptor. */
  lemma FoundReachable(a: Archive)
    requires ImageOf(a).Some?
    ensures var f := ImageOf(a).value; var outer := Outer(a);
      && TopOk(a) && Verified(a, outer) && Reaches(a, outer) && Verified(a, f.image) && Reaches(a, f.image)
      && f.content == ContentOf(a, f.image)
      && forall i :: 0 <= i < |f.attestations| ==> f.attestations[i] in Children(ContentOf(a, outer))
  {
    var outer := Outer(a);
    assert outer in Children(a.members["index.json"].content);
    hide Verified, Reaches, Children, Images, Others;
    ReachTop(a, outer);
    if outer.mediaType != DOCKER_MANIFEST {
      InnerChildren(ContentOf(a, outer));
      ReachChild(a, outer, ImageOf(a).value.image);
    }
  }

  lemma ReferencedReachable(a: Archive, f: Found)
    requires ImageOf(a) == Some(f) && TopOk(a) && ManifestOk(a, f.content)
    requires forall i :: 0 <= i < |f.attestations| ==> AttestationOk(a, f.attestations[i], f.image)
    ensures AllReachable(a, Referenced(a, f))
  {
    hide Verified, BlobPath, Reaches, AllReachable, Children, AttestationOk, ManifestPaths, ManifestOk, ImageOf, ContentOf, TopOk;
    var outer := Outer(a);
    FoundReachable(a);
    ImageVerified(a, f.content);
    ReachPath(a, outer);
    ReachPath(a, f.image);
    ManifestReachable(a, f.image, f.content);
    AttestationsReachable(a, outer, f.attestations, f.image);
    UnionReachable(a, {BlobPath(outer.digest)}, {BlobPath(f.image.digest)});
    assert {BlobPath(outer.digest)} + {BlobPath(f.image.digest)} == {BlobPath(outer.digest), BlobPath(f.image.digest)};
    UnionReachable(a, {BlobPath(outer.digest), BlobPath(f.image.digest)}, ManifestPaths(f.content));
    UnionReachable(a, {BlobPath(outer.digest), BlobPath(f.image.digest)} + ManifestPaths(f.content),
                   AttestationPaths(a, f.attestations));
  }

  lemma ReachableIsRegular(a: Archive, p: string)
    requires Reachable(a, p)
    ensures p in RegularNames(a)
  {
    hide Reaches;
  }

  /** Closure: on acceptance the regular members are exactly the three fixed files and the blobs reachable from index.json. */
  lemma AcceptedIsClosed(a: Archive, imageRef: string, p: string)
    requires GraphOk(a, imageRef)
    ensures p in RegularNames(a) <==> p in FIXED || Reachable(a, p)
  {
    if Reachable(a, p) {
      ReachableIsRegular(a, p);
    }
    hide Reachable, AttestationOk, ManifestOk, ImageOf, LegacyOk, TopOk, Referenced, RegularNames;
    ReferencedReachable(a, ImageOf(a).value);
  }

  lemma ImageVerified(a: Archive, c: Content)
    requires ManifestOk(a, c)
    ensures c.ManifestDoc? && Verified(a, c.config) && forall i :: 0 <= i < |c.layers| ==> Verified(a, c.layers[i])
  {
    hide Verified;
  }

  /** Every other regular member is a non-empty blob whose path is its own content digest. */
  lemma EveryBlobBound(a: Archive, imageRef: string, p: string)
    requires GraphOk(a, imageRef) && p in a.members && a.members[p].isFile && p !in FIXED
    ensures IsDigest(a.hash(a.members[p].content)) && p == BlobPath(a.hash(a.members[p].content)) && a.members[p].size > 0
  {
    AcceptedIsClosed(a, imageRef, p);
    var d: Descriptor :| Verified(a, d) && Reaches(a, d) && p == BlobPath(d.digest);
    hide GraphOk;
  }
}
