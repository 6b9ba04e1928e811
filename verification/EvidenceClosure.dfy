/**
 The closure of the edge evidence tree: which JSON files are vouched for, and by
 what.  Declarations of the release manifest bind files by path, size and digest;
 a probe, a pointer and four archive files are bound by their parents; every JSON
 file that nothing binds is a failure.  The last part joins this to the
 requirement validator on one tree.
 */
module EvidenceClosure {
  import opened Prelude
  import opened Paths
  import opened JsonValue
  import T = Traceability

  /** `content` is the parsed text, absent if the file is not JSON. */
  datatype Node = Plain(size: nat, digest: string, lines: seq<string>, content: Option<Json>) | Folder | SymLink

  /** Every path below the evidence root, relative and slash-separated. */
  type Tree = map<string, Node>

  const MAX_ARTIFACT_BYTES: nat := 67_108_864

  /** Checks on whole documents that bind no file: schema, and agreement of a parent with what it embeds. */
  datatype Rules = Rules(release: (Json, Option<Json>) -> bool, archive: (Json, Json, Json) -> bool)

  datatype Failure =
    | NotAnObject | UnsafePath | BadDigest | Repeated(path: string) | MissingOrLinked(path: string) | BadSize(path: string)
    | DigestMismatch(path: string) | BytesMismatch(path: string) | NotJson(path: string) | BadManifest | BadPointer
    | Drifted(path: string) | Unbound(path: string) | HasLinks

  function Content(tree: Tree, p: string): Option<Json> {
    if p in tree && tree[p].Plain? then tree[p].content else None
  }

  // ----- links -----

  predicate LinkAt(tree: Tree, p: string) { p in tree && tree[p].SymLink? }

  predicate LinkOnChain(tree: Tree, p: string) {
    exists k :: 1 <= k <= |Split(p)| && LinkAt(tree, Join(Split(p)[..k]))
  }

  lemma JoinNext(cs: seq<string>, k: nat)
    requires k < |cs|
    ensures Join(cs[..k + 1]) == if k == 0 then cs[0] else Join(cs[..k]) + "/" + cs[k]
  {
    assert cs[..k + 1] == cs[..k] + [cs[k]];
    if k > 0 {
      JoinConcat(cs[..k], [cs[k]]);
    }
  }

  method ChainHasLink(tree: Tree, p: string) returns (linked: bool)
    ensures linked <==> LinkOnChain(tree, p)
  {
    var parts, current := Split(p), "";
    hide Split, Join;
    for k := 0 to |parts|
      invariant k > 0 ==> current == Join(parts[..k])
      invariant forall j :: 1 <= j <= k ==> !LinkAt(tree, Join(parts[..j]))
    {
      JoinNext(parts, k);
      current := if k == 0 then parts[k] else current + "/" + parts[k];
      if LinkAt(tree, current) {
        return true;
      }
    }
    return false;
  }

  /** A regular file reached without a link; its resolved path is then its own. */
  predicate Readable(tree: Tree, p: string) { p in tree && tree[p].Plain? && !LinkOnChain(tree, p) }

  predicate Sized(tree: Tree, p: string) { p in tree && tree[p].Plain? && 1 <= tree[p].size <= MAX_ARTIFACT_BYTES }

  // ----- one declaration -----

  predicate IsDigest(s: string) { |s| == 71 && s[..7] == "sha256:" && Hex64(s[7..]) }

  predicate EndsJson(p: string) { |p| >= 5 && p[|p| - 5..] == ".json" }

  /** The file name has a JSON suffix; a name that is nothing but the suffix has none. */
  predicate JsonSuffix(p: string) { EndsJson(Basename(p)) && |Basename(p)| > 5 }

  /** A declaration and whether its byte count is compulsory. */
  datatype Claim = Claim(declaration: Json, counted: bool)

  function PathOf(c: Claim): string {
    var p := Field(c.declaration, "path"); if p.Text? then p.s else ""
  }

  function Target(dir: string, c: Claim): string { dir + "/" + PathOf(c) }

  /** The file a declaration names is there and is what the declaration says. */
  predicate Holds(tree: Tree, dir: string, c: Claim) {
    var p := Target(dir, c);
    && c.declaration.Obj? && Field(c.declaration, "path").Text? && T.SafeRelative(PathOf(c))
    && Field(c.declaration, "digest").Text? && IsDigest(Field(c.declaration, "digest").s)
    && Readable(tree, p) && Sized(tree, p) && Field(c.declaration, "digest").s == tree[p].digest
    && (c.counted ==> Field(c.declaration, "bytes") == Number(tree[p].size))
    && (JsonSuffix(p) ==> tree[p].content.Some?)
  }

  datatype Ledger = Ledger(failures: seq<Failure>, seen: set<string>, bound: set<string>)

  function Fail(l: Ledger, f: Failure): Ledger { l.(failures := l.failures + [f]) }

  /** Failures are only ever added. */
  predicate Grows(l: Ledger, r: Ledger) { l.failures <= r.failures }

  method BindDeclared(tree: Tree, dir: string, c: Claim, l: Ledger) returns (r: Ledger, found: bool)
    ensures Grows(l, r)
    ensures r.failures == [] <==> l.failures == [] && Holds(tree, dir, c) && PathOf(c) !in l.seen
    ensures r.failures == [] ==>
      found && r.seen == l.seen + {PathOf(c)} && r.bound == l.bound + {Target(dir, c)}
    ensures found ==> Target(dir, c) in tree && tree[Target(dir, c)].Plain?
  {
    hide IsDigest, JsonSuffix, LinkOnChain;
    r, found := l, false;
    if !c.declaration.Obj? {
      return Fail(l, NotAnObject), false;
    }
    var path, digest := Field(c.declaration, "path"), Field(c.declaration, "digest");
    if !path.Text? || !T.SafeRelative(path.s) {
      return Fail(l, UnsafePath), false;
    }
    if !digest.Text? || !IsDigest(digest.s) {
      return Fail(l, BadDigest), false;
    }
    if path.s in l.seen {
      return Fail(l, Repeated(path.s)), false;
    }
    r := r.(seen := r.seen + {path.s});
    var full := dir + "/" + path.s;
    var linked := ChainHasLink(tree, full);
    if linked || full !in tree || !tree[full].Plain? {
      return Fail(r, MissingOrLinked(full)), false;
    }
    var node := tree[full];
    if node.size < 1 || node.size > MAX_ARTIFACT_BYTES {
      return Fail(r, BadSize(full)), false;
    }
    r, found := r.(bound := r.bound + {full}), true;
    if node.digest != digest.s {
      r := Fail(r, DigestMismatch(full));
    }
    if c.counted && Field(c.declaration, "bytes") != Number(node.size) {
      r := Fail(r, BytesMismatch(full));
    }
    if JsonSuffix(full) && node.content.None? {
      r := Fail(r, NotJson(full));
    }
  }

  // ----- a list of declarations -----

  function Named(cs: seq<Claim>): set<string> { set i | 0 <= i < |cs| :: PathOf(cs[i]) }

  function Targets(dir: string, cs: seq<Claim>): set<string> { set i | 0 <= i < |cs| :: Target(dir, cs[i]) }

  /** All hold, no path is declared twice, and none was seen before. */
  predicate AllHold(tree: Tree, dir: string, cs: seq<Claim>, seen: set<string>) {
    && (forall i :: 0 <= i < |cs| ==> Holds(tree, dir, cs[i]) && PathOf(cs[i]) !in seen)
    && (forall i, j :: 0 <= i < j < |cs| ==> PathOf(cs[i]) != PathOf(cs[j]))
  }

  lemma Snoc(tree: Tree, dir: string, cs: seq<Claim>, i: nat, seen: set<string>)
    requires i < |cs|
    ensures Named(cs[..i + 1]) == Named(cs[..i]) + {PathOf(cs[i])}
    ensures Targets(dir, cs[..i + 1]) == Targets(dir, cs[..i]) + {Target(dir, cs[i])}
    ensures AllHold(tree, dir, cs[..i + 1], seen) <==>
      (AllHold(tree, dir, cs[..i], seen) && Holds(tree, dir, cs[i]) && PathOf(cs[i]) !in seen + Named(cs[..i]))
  {
    hide Holds, PathOf, Target;
    var more, less := cs[..i + 1], cs[..i];
    assert forall k :: 0 <= k < i ==> more[k] == less[k];
    assert more[i] == cs[i];
    forall p
      ensures p in Named(more) <==> p in Named(less) + {PathOf(cs[i])}
    {
      if p in Named(less) {
        var k :| 0 <= k < |less| && PathOf(less[k]) == p;
        assert PathOf(more[k]) == p;
      }
    }
    forall p
      ensures p in Targets(dir, more) <==> p in Targets(dir, less) + {Target(dir, cs[i])}
    {
      if p in Targets(dir, less) {
        var k :| 0 <= k < |less| && Target(dir, less[k]) == p;
        assert Target(dir, more[k]) == p;
      }
    }
    assert forall k :: 0 <= k < i ==> PathOf(less[k]) in Named(less);
  }

  lemma NoClaims(tree: Tree, dir: string, cs: seq<Claim>, seen: set<string>)
    ensures cs[..0] == [] && Named([]) == {} && Targets(dir, []) == {} && AllHold(tree, dir, [], seen)
    ensures cs[..|cs|] == cs
  {
  }

  method BindAll(tree: Tree, dir: string, cs: seq<Claim>, l: Ledger) returns (r: Ledger)
    ensures Grows(l, r)
    ensures r.failures == [] <==> l.failures == [] && AllHold(tree, dir, cs, l.seen)
    ensures r.failures == [] ==> r.seen == l.seen + Named(cs) && r.bound == l.bound + Targets(dir, cs)
  {
    hide Holds, PathOf, Target, AllHold, Named, Targets;
    r := l;
    NoClaims(tree, dir, cs, l.seen);
    for i := 0 to |cs|
      invariant Grows(l, r)
      invariant r.failures == [] <==> l.failures == [] && AllHold(tree, dir, cs[..i], l.seen)
      invariant r.failures == [] ==> r.seen == l.seen + Named(cs[..i]) && r.bound == l.bound + Targets(dir, cs[..i])
    {
      Snoc(tree, dir, cs, i, l.seen);
      var found;
      r, found := BindDeclared(tree, dir, cs[i], r);
    }
  }

  /** Two lists bound one after the other are one list. */
  lemma AllHoldConcat(tree: Tree, dir: string, a: seq<Claim>, b: seq<Claim>, seen: set<string>)
    ensures AllHold(tree, dir, a + b, seen) <==> AllHold(tree, dir, a, seen) && AllHold(tree, dir, b, seen + Named(a))
    ensures Named(a + b) == Named(a) + Named(b) && Targets(dir, a + b) == Targets(dir, a) + Targets(dir, b)
    decreases |b|
  {
    hide Holds, PathOf, Target, AllHold, Named, Targets;
    if b == [] {
      NoClaims(tree, dir, [], seen + Named(a));
      assert a + b == a;
    } else {
      var n := |b| - 1;
      AllHoldConcat(tree, dir, a, b[..n], seen);
      Snoc(tree, dir, a + b, |a| + n, seen);
      Snoc(tree, dir, b, n, seen + Named(a));
      assert (a + b)[..|a| + n] == a + b[..n] && (a + b)[|a| + n] == b[n];
      assert (a + b)[..|a| + n + 1] == a + b && b[..n + 1] == b;
      assert seen + (Named(a) + Named(b[..n])) == seen + Named(a) + Named(b[..n]);
    }
  }

  // ----- what the release manifest declares -----

  const RELEASE: string := "release-manifest.json"
  const SIGNATURE: string := "release-manifest.sigstore.json"
  const GROUPS: seq<string> := ["sboms", "scans", "evidence_inputs"]

  function Declare(path: string, digest: Json): Claim {
    Claim(Obj(map["path" := Text(path), "digest" := digest]), false)
  }

  function CountedClaims(list: Json): seq<Claim> {
    if list.Arr? then seq(|list.items|, i requires 0 <= i < |list.items| => Claim(list.items[i], true)) else []
  }

  /** The declarations of the first `g` groups of an inventory. */
  function Upto(inventory: Json, g: nat): seq<Claim>
    requires g <= |GROUPS|
  {
    if g == 0 then [] else Upto(inventory, g - 1) + CountedClaims(Field(inventory, GROUPS[g - 1]))
  }

  function Single(parent: Json, manifest: Json): seq<Claim> {
    [Claim(Field(manifest, "provenance"), false), Claim(Field(manifest, "offline_rebuild"), false),
     Declare(SIGNATURE, Field(parent, "signature_bundle_digest"))]
  }

  /** Everything declared besides the manifest itself. */
  function Claims(parent: Json, manifest: Json): seq<Claim> {
    Upto(Field(manifest, "inventory"), |GROUPS|) + Single(parent, manifest)
  }

  predicate Grouped(inventory: Json, g: nat)
    requires g <= |GROUPS|
  {
    forall j :: 0 <= j < g ==> Field(inventory, GROUPS[j]).Arr?
  }

  method BindInventory(tree: Tree, dir: string, inventory: Json, l: Ledger) returns (r: Ledger)
    ensures Grows(l, r)
    ensures r.failures == [] <==>
      l.failures == [] && Grouped(inventory, |GROUPS|) && AllHold(tree, dir, Upto(inventory, |GROUPS|), l.seen)
    ensures r.failures == [] ==>
      r.seen == l.seen + Named(Upto(inventory, |GROUPS|)) && r.bound == l.bound + Targets(dir, Upto(inventory, |GROUPS|))
  {
    r := l;
    NoClaims(tree, dir, [], l.seen);
    hide AllHold, Named, Targets, CountedClaims, Field;
    for g := 0 to |GROUPS|
      invariant Grows(l, r)
      invariant r.failures == [] <==>
        (l.failures == [] && Grouped(inventory, g) && AllHold(tree, dir, Upto(inventory, g), l.seen))
      invariant r.failures == [] ==>
        r.seen == l.seen + Named(Upto(inventory, g)) && r.bound == l.bound + Targets(dir, Upto(inventory, g))
    {
      var list := Field(inventory, GROUPS[g]);
      AllHoldConcat(tree, dir, Upto(inventory, g), CountedClaims(list), l.seen);
      if !list.Arr? {
        r := Fail(r, BadManifest);
        continue;
      }
      r := BindAll(tree, dir, CountedClaims(list), r);
    }
  }

  function ReleaseClaim(parent: Json): Claim { Declare(RELEASE, Field(parent, "manifest_digest")) }

  function Manifest(tree: Tree, dir: string): Option<Json> { Content(tree, dir + "/" + RELEASE) }

  /** A manifest that parses but is no object is bound and then not looked into. */
  predicate SupplyOk(tree: Tree, dir: string, parent: Json, oci: Option<Json>, rules: Rules) {
    && dir in tree && tree[dir].Folder? && !LinkOnChain(tree, dir) && Field(parent, "manifest_digest").Text?
    && Holds(tree, dir, ReleaseClaim(parent))
    && (IsObject(Manifest(tree, dir)) ==> ManifestOk(tree, dir, parent, Manifest(tree, dir).value, oci, rules))
  }

  predicate ManifestOk(tree: Tree, dir: string, parent: Json, manifest: Json, oci: Option<Json>, rules: Rules) {
    && rules.release(manifest, oci) && Field(manifest, "inventory").Obj?
    && Grouped(Field(manifest, "inventory"), |GROUPS|) && AllHold(tree, dir, Claims(parent, manifest), {RELEASE})
  }

  function SupplyBound(tree: Tree, dir: string, parent: Json): set<string> {
    {dir + "/" + RELEASE} +
    if IsObject(Manifest(tree, dir)) then Targets(dir, Claims(parent, Manifest(tree, dir).value)) else {}
  }

  method BindManifest(tree: Tree, dir: string, parent: Json, manifest: Json, oci: Option<Json>, rules: Rules, l: Ledger)
    returns (r: Ledger)
    requires l.failures == [] ==> l.seen == {RELEASE}
    ensures Grows(l, r)
    ensures r.failures == [] <==> l.failures == [] && ManifestOk(tree, dir, parent, manifest, oci, rules)
    ensures r.failures == [] ==> r.bound == l.bound + Targets(dir, Claims(parent, manifest))
  {
    hide AllHold, Named, Targets, Field, Upto, Single;
    r := l;
    if !rules.release(manifest, oci) {
      r := Fail(r, BadManifest);
    }
    var inventory := Field(manifest, "inventory");
    if !inventory.Obj? {
      return Fail(r, BadManifest);
    }
    AllHoldConcat(tree, dir, Upto(inventory, |GROUPS|), Single(parent, manifest), {RELEASE});
    r := BindInventory(tree, dir, inventory, r);
    r := BindAll(tree, dir, Single(parent, manifest), r);
  }

  lemma ReleasePath(parent: Json)
    ensures PathOf(ReleaseClaim(parent)) == RELEASE && forall dir :: Target(dir, ReleaseClaim(parent)) == dir + "/" + RELEASE
  {
  }

  method BindSupply(tree: Tree, dir: string, parent: Json, oci: Option<Json>, rules: Rules, l: Ledger) returns (r: Ledger)
    requires l.seen == {}
    ensures Grows(l, r)
    ensures r.failures == [] <==> l.failures == [] && SupplyOk(tree, dir, parent, oci, rules)
    ensures r.failures == [] ==> r.bound == l.bound + SupplyBound(tree, dir, parent)
  {
    hide Holds, ManifestOk, Claims, Targets, LinkOnChain;
    ReleasePath(parent);
    hide ReleaseClaim, Target, PathOf;
    var linked := ChainHasLink(tree, dir);
    if linked || dir !in tree || !tree[dir].Folder? {
      return Fail(l, MissingOrLinked(dir));
    }
    if !Field(parent, "manifest_digest").Text? {
      return Fail(l, BadManifest);
    }
    var found;
    r, found := BindDeclared(tree, dir, ReleaseClaim(parent), l);
    if !found {
      return;
    }
    var content := tree[dir + "/" + RELEASE].content;
    if content.None? || !content.value.Obj? {
      return;
    }
    r := BindManifest(tree, dir, parent, content.value, oci, rules, r);
  }

  // ----- files bound by their parents -----

  const OCI_PARENT: string := "oci-smoke/oci-smoke-evidence.json"
  const PROBE: string := "oci-smoke/oci-probe.json"
  const IMAGE: string := "oci-smoke/edge-image.tar"
  const INSPECTION: string := "oci-smoke/oci-archive-inspection.json"
  const INDEX: string := "oci-smoke/image-archive-manifest.json"
  const CONFIG: string := "oci-smoke/image-config.json"

  /** An OCI file with the digest and size its parent declares, either of which may be left open. */
  datatype Part = Part(path: string, digest: Json, bytes: Json)

  function Parts(archive: Json): seq<Part> {
    [Part(IMAGE, Field(archive, "archive_digest"), Field(archive, "archive_bytes")), Part(INSPECTION, Null, Null),
     Part(INDEX, Field(archive, "index_digest"), Field(archive, "index_bytes")),
     Part(CONFIG, Field(archive, "config_digest"), Field(archive, "config_bytes"))]
  }

  /** The file is what the two fields say, where they say anything. */
  predicate Agrees(node: Node, digest: Json, bytes: Json)
    requires node.Plain?
  {
    (digest != Null ==> digest == Text(node.digest)) && (bytes != Null ==> bytes == Number(node.size))
  }

  /** Which fields of the archive summary stand for which file; the summary is itself a file. */
  predicate PartVouched(tree: Tree, archive: Json, p: string)
    requires p in tree && tree[p].Plain?
  {
    || (p == "oci-smoke/edge-image.tar" && Agrees(tree[p], Field(archive, "archive_digest"), Field(archive, "archive_bytes")))
    || (p == "oci-smoke/image-archive-manifest.json" && Agrees(tree[p], Field(archive, "index_digest"), Field(archive, "index_bytes")))
    || (p == "oci-smoke/image-config.json" && Agrees(tree[p], Field(archive, "config_digest"), Field(archive, "config_bytes")))
    || (p == "oci-smoke/oci-archive-inspection.json" && tree[p].content == Some(archive))
  }

  predicate PartOk(tree: Tree, part: Part) {
    && Readable(tree, part.path) && Sized(tree, part.path)
    && (part.digest.Null? || part.digest == Text(tree[part.path].digest))
    && (part.bytes.Null? || part.bytes == Number(tree[part.path].size))
  }

  function PartPaths(parts: seq<Part>): set<string> { set i | 0 <= i < |parts| :: parts[i].path }

  predicate OciOk(tree: Tree, oci: Json, rules: Rules) {
    var archive := Field(oci, "archive");
    && archive.Obj? && (forall i :: 0 <= i < |Parts(archive)| ==> PartOk(tree, Parts(archive)[i]))
    && Content(tree, INSPECTION) == Some(archive) && Content(tree, INDEX).Some? && IsObject(Content(tree, CONFIG))
    && rules.archive(oci, Content(tree, INDEX).value, Content(tree, CONFIG).value)
  }

  method BindParts(tree: Tree, parts: seq<Part>, l: Ledger) returns (r: Ledger)
    ensures Grows(l, r) && r.seen == l.seen
    ensures r.failures == [] <==> l.failures == [] && forall i :: 0 <= i < |parts| ==> PartOk(tree, parts[i])
    ensures r.failures == [] ==> r.bound == l.bound + PartPaths(parts)
  {
    hide LinkOnChain;
    r := l;
    for i := 0 to |parts|
      invariant Grows(l, r) && r.seen == l.seen
      invariant r.failures == [] <==> (l.failures == [] && forall j :: 0 <= j < i ==> PartOk(tree, parts[j]))
      invariant r.failures == [] ==> forall p :: p in r.bound <==> p in l.bound || exists j :: 0 <= j < i && parts[j].path == p
    {
      var part := parts[i];
      var linked := ChainHasLink(tree, part.path);
      if linked || part.path !in tree || !tree[part.path].Plain? {
        r := Fail(r, MissingOrLinked(part.path));
        continue;
      }
      var node := tree[part.path];
      if node.size < 1 || node.size > MAX_ARTIFACT_BYTES {
        r := Fail(r, BadSize(part.path));
        continue;
      }
      if !part.digest.Null? && part.digest != Text(node.digest) {
        r := Fail(r, DigestMismatch(part.path));
      }
      if !part.bytes.Null? && part.bytes != Number(node.size) {
        r := Fail(r, BytesMismatch(part.path));
      }
      r := r.(bound := r.bound + {part.path});
    }
  }

  method BindOci(tree: Tree, oci: Json, rules: Rules, l: Ledger) returns (r: Ledger)
    ensures Grows(l, r) && r.seen == l.seen
    ensures r.failures == [] <==> l.failures == [] && OciOk(tree, oci, rules)
    ensures r.failures == [] ==> r.bound == l.bound + PartPaths(Parts(Field(oci, "archive")))
  {
    hide PartOk, PartPaths, Parts;
    var archive := Field(oci, "archive");
    if !archive.Obj? {
      return Fail(l, NotAnObject);
    }
    r := BindParts(tree, Parts(archive), l);
    var summary, index, config := Content(tree, INSPECTION), Content(tree, INDEX), Content(tree, CONFIG);
    if !IsObject(summary) || index.None? || !IsObject(config) {
      return Fail(r, NotJson(INSPECTION));
    }
    if summary.value != archive {
      r := Fail(r, Drifted(INSPECTION));
    }
    if !rules.archive(oci, index.value, config.value) {
      r := Fail(r, Drifted(CONFIG));
    }
  }

  predicate ProbeDue(tree: Tree, oci: Option<Json>) { (oci.Some? && Field(oci.value, "probe").Obj?) || PROBE in tree }

  predicate ProbeOk(tree: Tree, oci: Option<Json>) {
    ProbeDue(tree, oci) ==>
      && Readable(tree, PROBE) && tree[PROBE].size <= MAX_ARTIFACT_BYTES && IsObject(Content(tree, PROBE))
      && oci.Some? && Content(tree, PROBE) == Some(Field(oci.value, "probe"))
  }

  method BindProbe(tree: Tree, oci: Option<Json>, l: Ledger) returns (r: Ledger)
    ensures Grows(l, r) && r.seen == l.seen
    ensures r.failures == [] <==> l.failures == [] && ProbeOk(tree, oci)
    ensures r.failures == [] ==> r.bound == if ProbeDue(tree, oci) then l.bound + {PROBE} else l.bound
  {
    hide LinkOnChain;
    if !ProbeDue(tree, oci) {
      return l;
    }
    var linked := ChainHasLink(tree, PROBE);
    if linked || PROBE !in tree || !tree[PROBE].Plain? {
      return Fail(l, MissingOrLinked(PROBE));
    }
    if tree[PROBE].size > MAX_ARTIFACT_BYTES {
      return Fail(l, BadSize(PROBE));
    }
    if !IsObject(tree[PROBE].content) {
      return Fail(l, NotJson(PROBE));
    }
    if oci.None? || Field(oci.value, "probe") != tree[PROBE].content.value {
      return Fail(l, Drifted(PROBE));
    }
    return l.(bound := l.bound + {PROBE});
  }

  // ----- the pointer to the supply run -----

  const LATEST: string := "supply-chain/latest.json"
  const SUPPLY_PARENT: string := "supply-chain/supply-chain.json"

  predicate RunIdChar(c: char) {
    'A' <= c <= 'Z' || 'a' <= c <= 'z' || '0' <= c <= '9' || c == '.' || c == '_' || c == '-'
  }

  predicate IsRunId(s: string) {
    1 <= |s| <= 128 && s[0] !in {'.', '_', '-'} && forall i :: 0 <= i < |s| ==> RunIdChar(s[i])
  }

  predicate PointerOk(latest: Json) {
    var evidence, id := Field(latest, "evidence"), Field(latest, "run_id");
    && evidence.Text? && T.SafeRelative(evidence.s) && id.Text? && IsRunId(id.s)
    && Split(evidence.s) == ["runs", id.s, "supply-chain.json"]
  }

  function Source(latest: Json): string {
    var evidence := Field(latest, "evidence"); "supply-chain/" + if evidence.Text? then evidence.s else ""
  }

  /** The directory beside the pointed document. */
  function SupplyDir(latest: Json): string {
    var id := Field(latest, "run_id"); "supply-chain/runs/" + (if id.Text? then id.s else "") + "/supply"
  }

  predicate SourceOk(tree: Tree, latest: Json, parent: Option<Json>) {
    var p := Source(latest);
    && Readable(tree, p) && IsObject(Content(tree, p)) && parent == Content(tree, p)
    && Field(latest, "digest") == Text(tree[p].digest)
    && Field(parent.value, "run_id") in {Field(latest, "run_id"), Prefixed(Field(latest, "run_id"))}
  }

  function Prefixed(id: Json): Json { Text("rust-edge-agent-supply-" + if id.Text? then id.s else "") }

  predicate LatestOk(tree: Tree, parent: Option<Json>, oci: Option<Json>, rules: Rules) {
    && Readable(tree, LATEST) && IsObject(Content(tree, LATEST))
    && var latest := Content(tree, LATEST).value;
       PointerOk(latest) && SourceOk(tree, latest, parent) && SupplyOk(tree, SupplyDir(latest), parent.value, oci, rules)
  }

  function LatestBound(tree: Tree, parent: Option<Json>): set<string> {
    var latest := Content(tree, LATEST);
    if latest.None? || parent.None? then {LATEST}
    else {LATEST, Source(latest.value)} + SupplyBound(tree, SupplyDir(latest.value), parent.value)
  }

  method FollowPointer(tree: Tree, latest: Json, parent: Option<Json>, oci: Option<Json>, rules: Rules, l: Ledger)
    returns (r: Ledger)
    requires l.seen == {}
    ensures Grows(l, r)
    ensures r.failures == [] <==>
      l.failures == [] && PointerOk(latest) && SourceOk(tree, latest, parent)
      && SupplyOk(tree, SupplyDir(latest), parent.value, oci, rules)
    ensures r.failures == [] ==>
      r.bound == l.bound + {Source(latest)} + SupplyBound(tree, SupplyDir(latest), parent.value)
  {
    hide LinkOnChain, SupplyOk, SupplyBound, IsRunId, Split, SupplyDir;
    if !PointerOk(latest) {
      return Fail(l, BadPointer);
    }
    var source := Source(latest);
    var linked := ChainHasLink(tree, source);
    if linked || source !in tree || !tree[source].Plain? {
      return Fail(l, BadPointer);
    }
    if !IsObject(tree[source].content) {
      return Fail(l, NotJson(source));
    }
    var id := Field(latest, "run_id");
    if parent != tree[source].content || Field(latest, "digest") != Text(tree[source].digest)
       || Field(parent.value, "run_id") !in {id, Prefixed(id)} {
      return Fail(l, Drifted(source));
    }
    r := BindSupply(tree, SupplyDir(latest), parent.value, oci, rules, l.(bound := l.bound + {source}));
  }

  method BindLatest(tree: Tree, parent: Option<Json>, oci: Option<Json>, rules: Rules, l: Ledger) returns (r: Ledger)
    requires l.seen == {}
    ensures Grows(l, r)
    ensures r.failures == [] <==> l.failures == [] && LatestOk(tree, parent, oci, rules)
    ensures r.failures == [] ==> r.bound == l.bound + LatestBound(tree, parent)
  {
    hide LinkOnChain, SupplyOk, SupplyBound, PointerOk, Source, SupplyDir;
    var linked := ChainHasLink(tree, LATEST);
    if linked || LATEST !in tree || !tree[LATEST].Plain? {
      return Fail(l, MissingOrLinked(LATEST));
    }
    if !IsObject(tree[LATEST].content) {
      return Fail(l, NotJson(LATEST));
    }
    r := FollowPointer(tree, tree[LATEST].content.value, parent, oci, rules, l);
    r := r.(bound := r.bound + {LATEST});
  }

  // ----- the aggregators' own outputs -----

  const GATE: string := "gate-summary.json"
  const TRACE: string := "traceability-summary.json"

  function VersionOf(p: string): string {
    if p == GATE then "edge-module-gate-summary/v1" else "rust-edge-agent-traceability-evidence/v1"
  }

  predicate OutputOk(tree: Tree, p: string) {
    Readable(tree, p) ==>
      IsObject(Content(tree, p)) && Field(Content(tree, p).value, "schema_version") == Text(VersionOf(p))
  }

  method BindOutput(tree: Tree, p: string, l: Ledger) returns (r: Ledger)
    ensures Grows(l, r)
    ensures r.failures == [] <==> l.failures == [] && OutputOk(tree, p)
    ensures r.failures == [] ==> r.bound == if Readable(tree, p) then l.bound + {p} else l.bound
  {
    hide LinkOnChain;
    var linked := ChainHasLink(tree, p);
    if linked || p !in tree || !tree[p].Plain? {
      return l;
    }
    if !IsObject(tree[p].content) {
      return Fail(l, NotJson(p));
    }
    r := l;
    if Field(tree[p].content.value, "schema_version") != Text(VersionOf(p)) {
      r := Fail(r, Drifted(p));
    }
    r := r.(bound := r.bound + {p});
  }

  // ----- the sweep -----

  predicate NoLinks(tree: Tree) { forall p :: p in tree ==> !tree[p].SymLink? }

  /** A catalogued document as it was loaded: a readable object of admissible size. */
  function Cached(tree: Tree, catalogued: set<string>, p: string): Option<Json> {
    if p in catalogued && Readable(tree, p) && tree[p].size <= MAX_ARTIFACT_BYTES && IsObject(tree[p].content)
    then tree[p].content else None
  }

  function Sidecars(commands: set<string>): set<string> { set c | c in commands :: c + ".command.json" }

  function BoundClaims(tree: Tree, oci: Option<Json>, parent: Option<Json>): set<string> {
    (if ProbeDue(tree, oci) then {PROBE} else {}) +
    (if oci.Some? then PartPaths(Parts(Field(oci.value, "archive"))) else {}) + LatestBound(tree, parent) +
    (if Readable(tree, GATE) then {GATE} else {}) + (if Readable(tree, TRACE) then {TRACE} else {})
  }

  predicate ClosureOk(tree: Tree, catalogued: set<string>, commands: set<string>, rules: Rules) {
    var oci, parent := Cached(tree, catalogued, OCI_PARENT), Cached(tree, catalogued, SUPPLY_PARENT);
    && NoLinks(tree) && ProbeOk(tree, oci) && (oci.Some? ==> OciOk(tree, oci.value, rules))
    && LatestOk(tree, parent, oci, rules) && OutputOk(tree, GATE) && OutputOk(tree, TRACE)
    && AllKnown(tree, catalogued + Sidecars(commands) + BoundClaims(tree, oci, parent))
  }

  predicate AllKnown(tree: Tree, known: set<string>) { forall p :: p in tree && EndsJson(p) ==> p in known }

  /** A JSON file outside the known set is a failure whatever it holds. */
  method SweepJson(tree: Tree, known: set<string>) returns (failures: seq<Failure>)
    ensures failures == [] <==> AllKnown(tree, known)
  {
    hide EndsJson;
    failures := [];
    var todo := tree.Keys;
    while todo != {}
      invariant todo <= tree.Keys
      invariant failures == [] <==> forall p :: p in tree && p !in todo && EndsJson(p) ==> p in known
      decreases |todo|
    {
      var p :| p in todo;
      todo := todo - {p};
      if EndsJson(p) && p !in known {
        failures := failures + [Unbound(p)];
      }
    }
  }

  /** Bind what the parents vouch for, then sweep the tree. */
  method CloseEvidence(tree: Tree, catalogued: set<string>, commands: set<string>, rules: Rules)
    returns (failures: seq<Failure>)
    ensures failures == [] <==> ClosureOk(tree, catalogued, commands, rules)
  {
    hide EndsJson, LinkOnChain, OciOk, LatestOk, OutputOk, ProbeOk, ProbeDue, Parts, LatestBound, PartPaths, AllKnown, Readable;
    var oci, parent := Cached(tree, catalogued, OCI_PARENT), Cached(tree, catalogued, SUPPLY_PARENT);
    var l := Ledger([], {}, {});
    if !NoLinks(tree) {
      l := Fail(l, HasLinks);
    }
    l := BindProbe(tree, oci, l);
    if oci.Some? {
      l := BindOci(tree, oci.value, rules, l);
    }
    l := BindLatest(tree, parent, oci, rules, l);
    l := BindOutput(tree, GATE, l);
    l := BindOutput(tree, TRACE, l);
    var unbound := SweepJson(tree, catalogued + Sidecars(commands) + l.bound);
    failures := l.failures + unbound;
    if l.failures == [] {
      assert l.bound == BoundClaims(tree, oci, parent);
    }
  }

  // ----- what being bound means -----

  /** A declaration of the release manifest, or the run's own claim for it, names `p` with the digest `p` has, and its size if it must. */
  ghost predicate DeclaredAs(tree: Tree, dir: string, cs: seq<Claim>, p: string) {
    p in tree && tree[p].Plain? && 1 <= tree[p].size <= 67_108_864 &&
    exists i :: 0 <= i < |cs| && dir + "/" + PathOf(cs[i]) == p && Field(cs[i].declaration, "digest") == Text(tree[p].digest)
                && (cs[i].counted ==> Field(cs[i].declaration, "bytes") == Number(tree[p].size))
  }

  /** What vouches for a bound file.  The supply pointer is the one root: nothing vouches for it, it must be in order itself. */
  ghost predicate Vouched(tree: Tree, oci: Option<Json>, parent: Option<Json>, p: string)
    requires p in tree && tree[p].Plain?
  {
    var latest := Content(tree, LATEST);
    || (p == PROBE && oci.Some? && tree[p].content == Some(Field(oci.value, "probe")))
    || (oci.Some? && PartVouched(tree, Field(oci.value, "archive"), p))
    || (p == LATEST && IsObject(tree[p].content) && PointerOk(tree[p].content.value))
    || (latest.Some? && p == Source(latest.value) && tree[p].content == parent
        && Field(latest.value, "digest") == Text(tree[p].digest))
    || (latest.Some? && parent.Some? && p == SupplyDir(latest.value) + "/" + RELEASE
        && Field(parent.value, "manifest_digest") == Text(tree[p].digest))
    || (latest.Some? && parent.Some? && Manifest(tree, SupplyDir(latest.value)).Some?
        && DeclaredAs(tree, SupplyDir(latest.value),
                      Claims(parent.value, Manifest(tree, SupplyDir(latest.value)).value), p))
    || ((p == GATE || p == TRACE) && IsObject(tree[p].content)
        && Field(tree[p].content.value, "schema_version") == Text(VersionOf(p)))
  }

  ghost predicate Accounted(tree: Tree, catalogued: set<string>, commands: set<string>, p: string)
    requires p in tree
  {
    || p in catalogued || (exists c :: c in commands && p == c + ".command.json")
    || (tree[p].Plain? && Vouched(tree, Cached(tree, catalogued, OCI_PARENT), Cached(tree, catalogued, SUPPLY_PARENT), p))
  }

  lemma SupplyVouched(tree: Tree, dir: string, parent: Json, oci: Option<Json>, rules: Rules, p: string)
    requires SupplyOk(tree, dir, parent, oci, rules) && p in SupplyBound(tree, dir, parent)
    ensures p in tree && tree[p].Plain?
    ensures (p == dir + "/" + RELEASE && Field(parent, "manifest_digest") == Text(tree[p].digest)) ||
            (Manifest(tree, dir).Some? && DeclaredAs(tree, dir, Claims(parent, Manifest(tree, dir).value), p))
  {
    hide LinkOnChain, IsDigest, JsonSuffix, Claims;
    if p == dir + "/" + RELEASE {
      ReleasePath(parent);
    } else {
      var cs := Claims(parent, Manifest(tree, dir).value);
      var i :| 0 <= i < |cs| && Target(dir, cs[i]) == p;
      assert Holds(tree, dir, cs[i]);
    }
  }

  lemma PartsVouched(tree: Tree, oci: Json, rules: Rules, p: string)
    requires OciOk(tree, oci, rules) && p in PartPaths(Parts(Field(oci, "archive")))
    ensures p in tree && tree[p].Plain? && PartVouched(tree, Field(oci, "archive"), p)
  {
    hide LinkOnChain;
    var parts := Parts(Field(oci, "archive"));
    var i :| 0 <= i < |parts| && parts[i].path == p;
    assert PartOk(tree, parts[i]);
  }

  /** Everything the release manifest declares is a claim, and nothing else is but the signature of the run. */
  lemma ClaimsExactly(parent: Json, manifest: Json, c: Claim)
    ensures c in Claims(parent, manifest) <==>
      || (exists group, k :: group in {"sboms", "scans", "evidence_inputs"} && Listed(Field(manifest, "inventory"), group, k, c))
      || c == Claim(Field(manifest, "provenance"), false) || c == Claim(Field(manifest, "offline_rebuild"), false)
      || c == Claim(Obj(map["path" := Text("release-manifest.sigstore.json"), "digest" := Field(parent, "signature_bundle_digest")]), false)
  {
    var inventory := Field(manifest, "inventory");
    AllGroups(inventory);
    InGroup(inventory, "sboms", c);
    InGroup(inventory, "scans", c);
    InGroup(inventory, "evidence_inputs", c);
    hide CountedClaims, Upto, Field, Listed;
  }

  lemma AllGroups(inventory: Json)
    ensures Upto(inventory, |GROUPS|) == CountedClaims(Field(inventory, "sboms")) + CountedClaims(Field(inventory, "scans"))
      + CountedClaims(Field(inventory, "evidence_inputs"))
  {
    hide CountedClaims, Field;
    var sboms := CountedClaims(Field(inventory, "sboms"));
    assert Upto(inventory, 0) == [] && Upto(inventory, 1) == Upto(inventory, 0) + CountedClaims(Field(inventory, GROUPS[0]));
    assert [] + sboms == sboms;
    assert Upto(inventory, 2) == Upto(inventory, 1) + CountedClaims(Field(inventory, GROUPS[1]));
    assert Upto(inventory, 3) == Upto(inventory, 2) + CountedClaims(Field(inventory, GROUPS[2]));
  }

  /** Item `k` of the group, with its byte count compulsory. */
  predicate Listed(inventory: Json, group: string, k: int, c: Claim) {
    Field(inventory, group).Arr? && 0 <= k < |Field(inventory, group).items| && c == Claim(Field(inventory, group).items[k], true)
  }

  lemma InGroup(inventory: Json, group: string, c: Claim)
    ensures c in CountedClaims(Field(inventory, group)) <==> exists k :: Listed(inventory, group, k, c)
  {
    var list := CountedClaims(Field(inventory, group));
    if c in list {
      var k :| 0 <= k < |list| && list[k] == c;
      assert Listed(inventory, group, k, c);
    }
    if exists k :: Listed(inventory, group, k, c) {
      var k :| Listed(inventory, group, k, c);
      assert list[k] == c;
    }
  }

  /** The pointer leads to the document of one run, and the declared files lie beside that document. */
  lemma PointedRun(latest: Json)
    requires PointerOk(latest)
    ensures Field(latest, "run_id").Text? && IsRunId(Field(latest, "run_id").s)
    ensures var run := "supply-chain/runs/" + Field(latest, "run_id").s;
      Source(latest) == run + "/supply-chain.json" && SupplyDir(latest) == run + "/supply"
  {
    var evidence, id := Field(latest, "evidence").s, Field(latest, "run_id").s;
    JoinSplit(evidence);
    JoinThree("runs", id, "supply-chain.json");
    SameRun(id);
    hide Split, Join, IsRunId;
  }

  lemma SameRun(id: string)
    ensures "supply-chain/" + ("runs" + "/" + id + "/" + "supply-chain.json") == "supply-chain/runs/" + id + "/supply-chain.json"
  {
  }

  lemma JoinThree(a: string, b: string, c: string)
    ensures Join([a, b, c]) == a + "/" + b + "/" + c
  {
    JoinNext([a, b, c], 2);
    JoinNext([a, b, c], 1);
    assert [a, b, c][..3] == [a, b, c] && [a, b, c][..1] == [a];
    JoinNext([a, b, c], 0);
  }

  /**
   No failures: there is no link in the tree, and every JSON file in it is
   catalogued, the sidecar of a bound command, the supply pointer, or vouched for, by
   digest wherever the document that vouches states one.
   */
  lemma ClosedIsVouched(tree: Tree, catalogued: set<string>, commands: set<string>, rules: Rules, p: string)
    requires ClosureOk(tree, catalogued, commands, rules) && p in tree && EndsJson(p)
    ensures NoLinks(tree) && Accounted(tree, catalogued, commands, p)
  {
    var oci, parent := Cached(tree, catalogued, OCI_PARENT), Cached(tree, catalogued, SUPPLY_PARENT);
    hide LinkOnChain, EndsJson, SupplyOk, SupplyBound, PointerOk, DeclaredAs, Source, SupplyDir, Claims, Holds, Manifest;
    if p !in catalogued && p !in Sidecars(commands) {
      var latest := Content(tree, LATEST).value;
      if p in SupplyBound(tree, SupplyDir(latest), parent.value) {
        SupplyVouched(tree, SupplyDir(latest), parent.value, oci, rules, p);
      } else if oci.Some? && p in PartPaths(Parts(Field(oci.value, "archive"))) {
        PartsVouched(tree, oci.value, rules, p);
      }
    }
  }

  // ----- together with the requirements -----

  /** The command evidence of a tree; `read` takes a sidecar apart. */
  function EvidenceOf(tree: Tree, runId: string, commands: set<string>, read: Json -> T.CommandDoc): T.Evidence {
    T.Evidence(runId,
               map p | p in tree && Readable(tree, p) :: T.Log(tree[p].lines, tree[p].digest, tree[p].size),
               map c | c in commands && Readable(tree, c + ".command.json") :: SidecarOf(tree, c + ".command.json", read))
  }

  function SidecarOf(tree: Tree, p: string, read: Json -> T.CommandDoc): Option<T.CommandDoc> {
    var content := Content(tree, p);
    if IsObject(content) && p in tree && tree[p].Plain? && tree[p].size <= MAX_ARTIFACT_BYTES then Some(read(content.value)) else None
  }

  /** One run of the validator over a tree: the requirements, then the closure. */
  method ValidateTree(bs: seq<T.Binding>, rs: seq<T.Requirement>, tree: Tree, runId: string, catalogued: set<string>,
                      docs: map<string, T.JsonDoc>, read: Json -> T.CommandDoc, rules: Rules)
    returns (trace: seq<T.Failure>, open: seq<Failure>, qualified: bool)
    ensures trace == [] && open == [] && qualified <==>
      var commands := T.ByCommand(bs).Keys;
      && T.Qualified(bs, rs, EvidenceOf(tree, runId, commands, read), docs)
      && ClosureOk(tree, catalogued, commands, rules)
  {
    hide T.Qualified, ClosureOk, EvidenceOf;
    var commands := T.ByCommand(bs).Keys;
    trace, qualified := T.Validate(bs, rs, EvidenceOf(tree, runId, commands, read), docs);
    open := CloseEvidence(tree, catalogued, commands, rules);
  }

  /** Log and sidecar of `b` are files of the tree, and the sidecar says the log, by digest and size, is of a run that passed. */
  ghost predicate ProvedInTree(tree: Tree, runId: string, b: T.Binding, read: Json -> T.CommandDoc, t: string) {
    var sidecar := b.command + ".command.json";
    && Readable(tree, b.log) && Readable(tree, sidecar) && IsObject(tree[sidecar].content)
    && var doc := read(tree[sidecar].content.value);
       && doc.exit == T.Code(0) && doc.result == T.Passed && doc.command == b.command && doc.runId == runId
       && doc.logPath == b.log && doc.logDigest == tree[b.log].digest && doc.logBytes == tree[b.log].size
       && (b.mode == T.RustLibtest ==> T.HasPassingLine(tree[b.log].lines, t))
  }

  lemma ProvedThere(tree: Tree, runId: string, commands: set<string>, read: Json -> T.CommandDoc, b: T.Binding, t: string)
    requires T.Proves(EvidenceOf(tree, runId, commands, read), b, t)
    ensures ProvedInTree(tree, runId, b, read, t)
  {
    hide Readable, T.HasPassingLine;
  }

  ghost predicate TargetInTree(tree: Tree, runId: string, bs: seq<T.Binding>, read: Json -> T.CommandDoc, t: string) {
    exists n :: 0 <= n < |bs| && t in bs[n].targets && ProvedInTree(tree, runId, bs[n], read, t)
  }

  /** QUALIFIED over a tree: each target is proved by files of the tree, and no JSON file in it goes unvouched. */
  lemma QualifiedTree(bs: seq<T.Binding>, rs: seq<T.Requirement>, tree: Tree, runId: string, catalogued: set<string>,
                      docs: map<string, T.JsonDoc>, read: Json -> T.CommandDoc, rules: Rules)
    requires var commands := T.ByCommand(bs).Keys;
      T.Qualified(bs, rs, EvidenceOf(tree, runId, commands, read), docs) && ClosureOk(tree, catalogued, commands, rules)
    ensures forall i, k :: 0 <= i < |rs| && 0 <= k < |rs[i].targets| ==> TargetInTree(tree, runId, bs, read, rs[i].targets[k])
    ensures forall p :: p in tree && EndsJson(p) ==> Accounted(tree, catalogued, T.ByCommand(bs).Keys, p)
  {
    var commands := T.ByCommand(bs).Keys;
    hide T.Qualified, EvidenceOf, T.Proves, Readable, ClosureOk, EndsJson, Accounted, ProvedInTree, T.ByCommand;
    forall i, k | 0 <= i < |rs| && 0 <= k < |rs[i].targets|
      ensures TargetInTree(tree, runId, bs, read, rs[i].targets[k])
    {
      var e := EvidenceOf(tree, runId, commands, read);
      T.QualifiedEndToEnd(bs, rs, e, docs);
      assert T.IsProved(bs, e, rs[i].targets[k]);
      var n: nat :| T.ProvedBy(bs, e, rs[i].targets[k], n);
      ProvedThere(tree, runId, commands, read, bs[n], rs[i].targets[k]);
    }
    forall p | p in tree && EndsJson(p)
      ensures Accounted(tree, catalogued, commands, p)
    {
      ClosedIsVouched(tree, catalogued, commands, rules, p);
    }
  }
}
