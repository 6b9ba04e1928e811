/**
 The database module's traceability document: the builder that writes it from
 the manifest and the command sidecars, and the independent checker that accepts
 it into the module summary.
 */
module DbTrace {
  import opened Prelude

  datatype Binding = Binding(command: string, required: bool, targets: seq<string>)

  datatype Requirement = Requirement(id: string, scenarios: seq<string>, commands: seq<string>, limit: string)

  datatype Manifest = Manifest(
    bindings: seq<Binding>, requirements: seq<Requirement>, conditional: string, digest: string, bytes: int)

  /** A command sidecar in the run directory, by command. */
  datatype Sidecar = Sidecar(passed: bool, qualified: bool, schema: string, digest: string, bytes: int)

  type Sidecars = map<string, Sidecar>

  datatype TargetRow = TargetRow(target: string, command: string, passed: bool, qualified: bool)

  datatype EvidenceRow = EvidenceRow(
    path: string, schema: string, test: string, requirement: string, passed: bool, qualified: bool)

  datatype Entry = Entry(
    id: string, scenarios: seq<string>, targets: seq<TargetRow>, evidence: seq<EvidenceRow>,
    passed: bool, qualified: bool, limit: string)

  datatype Artifact = Artifact(path: string, digest: string, bytes: int)

  datatype Document = Document(
    schema: string, moduleId: string, manifest: string, manifestDigest: string, evidenceRoot: string,
    passed: bool, qualified: bool, valid: bool, failures: seq<string>,
    entries: seq<Entry>, requirementIds: seq<string>, conditional: string, artifacts: seq<Artifact>)

  const SCHEMA: string := "postgresql-state-requirement-traceability/v1"
  const MODULE: string := "MOD-DB-001"
  const MANIFEST_PATH: string := "db/requirements-traceability.json"

  function SidecarPath(command: string): string { command + ".command.json" }

  function Joined(parts: seq<string>): string {
    if parts == [] then "" else if |parts| == 1 then parts[0] else parts[0] + "," + Joined(parts[1..])
  }

  /** Bindings by command; a later one replaces an earlier one. */
  function ByCommand(bs: seq<Binding>): map<string, Binding> {
    if bs == [] then map[] else ByCommand(bs[..|bs| - 1])[bs[|bs| - 1].command := bs[|bs| - 1]]
  }

  // ----- the builder -----

  function TargetRowOf(b: Binding, s: Sidecar): TargetRow { TargetRow(Joined(b.targets), b.command, s.passed, s.qualified) }

  function EvidenceRowOf(r: Requirement, command: string, s: Sidecar): EvidenceRow
    requires r.scenarios != []
  {
    EvidenceRow(SidecarPath(command), s.schema, r.scenarios[0], r.id, s.passed, s.qualified)
  }

  /** The builder's view: bindings and the sidecars found for them. */
  datatype Loaded = Loaded(bindings: map<string, Binding>, sidecars: Sidecars)

  predicate Named(bindings: map<string, Binding>) { forall c :: c in bindings ==> bindings[c].command == c }

  /** Rows of one requirement, or nothing if a command has no sidecar or there is no scenario to name. */
  function RowsOf(l: Loaded, r: Requirement, n: nat): Option<(seq<TargetRow>, seq<EvidenceRow>)>
    requires n <= |r.commands|
  {
    if n == 0 then Some(([], []))
    else
      var before, c := RowsOf(l, r, n - 1), r.commands[n - 1];
      if before.None? || c !in l.sidecars || c !in l.bindings || r.scenarios == [] then None
      else Some((before.value.0 + [TargetRowOf(l.bindings[c], l.sidecars[c])],
                 before.value.1 + [EvidenceRowOf(r, c, l.sidecars[c])]))
  }

  predicate AllTargetsPass(rows: seq<TargetRow>) { forall i :: 0 <= i < |rows| ==> rows[i].passed }

  function EntryOf(r: Requirement, rows: (seq<TargetRow>, seq<EvidenceRow>)): Entry {
    Entry(r.id, r.scenarios, rows.0, rows.1, AllTargetsPass(rows.0), AllTargetsPass(rows.0), r.limit)
  }

  method BuildEntry(l: Loaded, r: Requirement) returns (entry: Option<Entry>)
    ensures entry == (var rows := RowsOf(l, r, |r.commands|); if rows.None? then None else Some(EntryOf(r, rows.value)))
  {
    var targets: seq<TargetRow>, evidence: seq<EvidenceRow> := [], [];
    for i := 0 to |r.commands|
      invariant RowsOf(l, r, i) == Some((targets, evidence))
    {
      var c := r.commands[i];
      if c !in l.sidecars || c !in l.bindings || r.scenarios == [] {
        RowsStop(l, r, i + 1, |r.commands|);
        return None;
      }
      var s := l.sidecars[c];
      targets := targets + [TargetRow(Joined(l.bindings[c].targets), l.bindings[c].command, s.passed, s.qualified)];
      evidence := evidence + [EvidenceRow(SidecarPath(c), s.schema, r.scenarios[0], r.id, s.passed, s.qualified)];
    }
    return Some(EntryOf(r, (targets, evidence)));
  }

  lemma {:induction false} RowsStop(l: Loaded, r: Requirement, i: nat, n: nat)
    requires i <= n <= |r.commands| && RowsOf(l, r, i).None?
    ensures RowsOf(l, r, n).None?
  {
    if i < n {
      RowsStop(l, r, i, n - 1);
    }
  }

  /** The sidecars the builder loads; a required one that is missing is an error. */
  predicate RequiredPresent(m: Manifest, files: Sidecars) {
    forall c :: c in ByCommand(m.bindings) && ByCommand(m.bindings)[c].required ==> c in files
  }

  function LoadedOf(m: Manifest, files: Sidecars): Loaded {
    var bindings := ByCommand(m.bindings);
    Loaded(bindings, map c | c in bindings && c in files :: files[c])
  }

  function EntriesOf(l: Loaded, rs: seq<Requirement>): Option<seq<Entry>> {
    if rs == [] then Some([])
    else
      var before, rows := EntriesOf(l, rs[..|rs| - 1]), RowsOf(l, rs[|rs| - 1], |rs[|rs| - 1].commands|);
      if before.None? || rows.None? then None else Some(before.value + [EntryOf(rs[|rs| - 1], rows.value)])
  }

  function Ids(rs: seq<Requirement>): seq<string> { if rs == [] then [] else Ids(rs[..|rs| - 1]) + [rs[|rs| - 1].id] }

  predicate AllPass(entries: seq<Entry>) { forall i :: 0 <= i < |entries| ==> entries[i].passed }

  /** Artifacts by path, as a reader of the document indexes them. */
  function ByPath(artifacts: seq<Artifact>): map<string, (string, int)> {
    if artifacts == [] then map[]
    else
      var a := artifacts[|artifacts| - 1];
      ByPath(artifacts[..|artifacts| - 1])[a.path := (a.digest, a.bytes)]
  }

  function Described(s: Sidecar): (string, int) { (s.digest, s.bytes) }

  /** The index holds the manifest and the sidecars of `done`, and nothing else. */
  predicate Covers(index: map<string, (string, int)>, m: Manifest, sidecars: Sidecars, done: set<string>)
    requires done <= sidecars.Keys
  {
    && index.Keys == {MANIFEST_PATH} + (set c | c in done :: SidecarPath(c))
    && index[MANIFEST_PATH] == (m.digest, m.bytes)
    && (forall c :: c in done ==> index[SidecarPath(c)] == Described(sidecars[c]))
  }

  lemma SidecarPathsDiffer(a: string, b: string)
    ensures SidecarPath(a) == SidecarPath(b) ==> a == b
    ensures SidecarPath(a) != MANIFEST_PATH
  {
    var p := SidecarPath(a);
    assert p[|p| - 6] == ".command.json"[7] == 'd' && MANIFEST_PATH[|MANIFEST_PATH| - 6] == 'y';
    assert SidecarPath(a)[..|a|] == a && SidecarPath(b)[..|b|] == b;
  }

  lemma CoversStep(index: map<string, (string, int)>, m: Manifest, sidecars: Sidecars, done: set<string>, c: string)
    requires done <= sidecars.Keys && c in sidecars && Covers(index, m, sidecars, done)
    ensures Covers(index[SidecarPath(c) := Described(sidecars[c])], m, sidecars, done + {c})
  {
    hide SidecarPath;
    var next := index[SidecarPath(c) := Described(sidecars[c])];
    forall d | d in done + {c}
      ensures SidecarPath(d) in next && next[SidecarPath(d)] == Described(sidecars[d])
    {
      SidecarPathsDiffer(c, d);
    }
    SidecarPathsDiffer(c, c);
    assert (set d | d in done + {c} :: SidecarPath(d)) == (set d | d in done :: SidecarPath(d)) + {SidecarPath(c)};
  }

  predicate ListsArtifacts(artifacts: seq<Artifact>, m: Manifest, sidecars: Sidecars) {
    Covers(ByPath(artifacts), m, sidecars, sidecars.Keys)
  }

  predicate Built(doc: Document, m: Manifest, files: Sidecars, root: string) {
    var l := LoadedOf(m, files);
    && RequiredPresent(m, files)
    && EntriesOf(l, m.requirements) == Some(doc.entries)
    && ListsArtifacts(doc.artifacts, m, l.sidecars)
    && doc == Document(SCHEMA, MODULE, MANIFEST_PATH, m.digest, root,
                       AllPass(doc.entries), AllPass(doc.entries), AllPass(doc.entries),
                       if AllPass(doc.entries) then [] else ["one or more required command gates did not pass"],
                       doc.entries, Ids(m.requirements), m.conditional, doc.artifacts)
  }

  method LoadSidecars(m: Manifest, files: Sidecars) returns (r: Option<Loaded>)
    ensures r == if RequiredPresent(m, files) then Some(LoadedOf(m, files)) else None
  {
    var bindings := ByCommand(m.bindings);
    var sidecars: Sidecars := map[];
    var todo := bindings.Keys;
    while todo != {}
      invariant todo <= bindings.Keys
      invariant forall c :: c in bindings && c !in todo && bindings[c].required ==> c in files
      invariant forall c :: c in sidecars <==> c in bindings && c in files && c !in todo
      invariant forall c :: c in sidecars ==> sidecars[c] == files[c]
      decreases |todo|
    {
      var c :| c in todo;
      if bindings[c].required && c !in files {
        return None;
      }
      if c in files {
        sidecars := sidecars[c := files[c]];
      }
      todo := todo - {c};
    }
    assert sidecars == LoadedOf(m, files).sidecars;
    return Some(Loaded(bindings, sidecars));
  }

  lemma OnlyManifest(m: Manifest, sidecars: Sidecars)
    ensures Covers(ByPath([Artifact(MANIFEST_PATH, m.digest, m.bytes)]), m, sidecars, {})
  {
    var artifacts := [Artifact(MANIFEST_PATH, m.digest, m.bytes)];
    assert artifacts[..0] == [];
  }

  lemma ByPathSnoc(artifacts: seq<Artifact>, a: Artifact)
    ensures ByPath(artifacts + [a]) == ByPath(artifacts)[a.path := (a.digest, a.bytes)]
  {
    assert (artifacts + [a])[..|artifacts|] == artifacts;
  }

  method ListArtifacts(m: Manifest, sidecars: Sidecars) returns (artifacts: seq<Artifact>)
    ensures ListsArtifacts(artifacts, m, sidecars)
  {
    artifacts := [Artifact(MANIFEST_PATH, m.digest, m.bytes)];
    var todo := sidecars.Keys;
    ghost var done: set<string> := {};
    OnlyManifest(m, sidecars);
    hide Covers, SidecarPath, ByPath;
    while todo != {}
      invariant done !! todo && done + todo == sidecars.Keys && Covers(ByPath(artifacts), m, sidecars, done)
      decreases |todo|
    {
      var c :| c in todo;
      CoversStep(ByPath(artifacts), m, sidecars, done, c);
      ByPathSnoc(artifacts, Artifact(SidecarPath(c), sidecars[c].digest, sidecars[c].bytes));
      artifacts := artifacts + [Artifact(SidecarPath(c), sidecars[c].digest, sidecars[c].bytes)];
      todo, done := todo - {c}, done + {c};
    }
    assert done == sidecars.Keys;
  }

  /** The builder: fails on a missing sidecar, otherwise writes the document. */
  method BuildDocument(m: Manifest, files: Sidecars, root: string) returns (r: Option<Document>)
    ensures r.Some? ==> Built(r.value, m, files, root)
    ensures r.None? <==> !RequiredPresent(m, files) || EntriesOf(LoadedOf(m, files), m.requirements).None?
  {
    var loaded := LoadSidecars(m, files);
    if loaded.None? {
      return None;
    }
    hide LoadedOf, RequiredPresent, ListsArtifacts, RowsOf;
    var l, entries: seq<Entry>, allPass := loaded.value, [], true;
    var ids: seq<string> := [];
    assert m.requirements[..0] == [];
    for i := 0 to |m.requirements|
      invariant EntriesOf(l, m.requirements[..i]) == Some(entries) && ids == Ids(m.requirements[..i])
      invariant allPass == AllPass(entries)
    {
      var r := m.requirements[i];
      assert m.requirements[..i + 1][..i] == m.requirements[..i];
      var entry := BuildEntry(l, r);
      if entry.None? {
        EntriesStop(l, m.requirements, i + 1);
        return None;
      }
      allPass := allPass && entry.value.passed;
      PassSnoc(entries, entry.value);
      entries, ids := entries + [entry.value], ids + [r.id];
    }
    assert m.requirements[..|m.requirements|] == m.requirements;
    var artifacts := ListArtifacts(m, l.sidecars);
    return Some(Document(SCHEMA, MODULE, MANIFEST_PATH, m.digest, root, allPass, allPass, allPass,
                         if allPass then [] else ["one or more required command gates did not pass"],
                         entries, ids, m.conditional, artifacts));
  }

  lemma PassSnoc(entries: seq<Entry>, e: Entry)
    ensures AllPass(entries + [e]) <==> AllPass(entries) && e.passed
  {
    assert forall i :: 0 <= i < |entries| ==> (entries + [e])[i] == entries[i];
    assert (entries + [e])[|entries|] == e;
  }

  lemma {:induction false} EntriesStop(l: Loaded, rs: seq<Requirement>, i: nat)
    requires i <= |rs| && EntriesOf(l, rs[..i]).None?
    ensures EntriesOf(l, rs).None?
    decreases |rs|
  {
    hide RowsOf;
    if i < |rs| {
      assert rs[..|rs| - 1][..i] == rs[..i];
      EntriesStop(l, rs[..|rs| - 1], i);
    } else {
      assert rs[..i] == rs;
    }
  }

  // ----- the checker -----

  /** What the checker demands of one entry. */
  predicate EntryOk(e: Entry, r: Requirement, bindings: map<string, Binding>) {
    && e.id == r.id && e.scenarios == r.scenarios && e.limit == r.limit && e.passed && e.qualified
    && |e.targets| == |r.commands| && |e.evidence| == |r.commands|
    && (forall k :: 0 <= k < |r.commands| ==>
          && r.commands[k] in bindings && e.targets[k].command == r.commands[k]
          && e.targets[k].target == Joined(bindings[r.commands[k]].targets)
          && e.evidence[k].path == SidecarPath(r.commands[k]))
    && (forall k :: 0 <= k < |e.targets| ==> e.targets[k].passed && e.targets[k].qualified)
    && (forall k :: 0 <= k < |e.evidence| ==> e.evidence[k].passed && e.evidence[k].qualified)
  }

  predicate HeaderOk(doc: Document, m: Manifest, root: string) {
    && doc.schema == SCHEMA && doc.moduleId == MODULE && doc.manifest == MANIFEST_PATH && doc.manifestDigest == m.digest
    && doc.evidenceRoot == root && doc.passed && doc.qualified && doc.valid && doc.failures == []
    && doc.requirementIds == Ids(m.requirements) && doc.conditional == m.conditional
    && |doc.entries| == |m.requirements|
  }

  predicate Accepted(doc: Document, m: Manifest, root: string, sidecars: Sidecars) {
    && HeaderOk(doc, m, root)
    && (forall i :: 0 <= i < |m.requirements| ==> EntryOk(doc.entries[i], m.requirements[i], ByCommand(m.bindings)))
    && ListsArtifacts(doc.artifacts, m, sidecars)
  }

  /** The three lists of one entry against the manifest's, then the verdict of every row. */
  method CheckEntry(e: Entry, r: Requirement, bindings: map<string, Binding>) returns (ok: bool)
    ensures ok <==> EntryOk(e, r, bindings)
  {
    hide Joined, SidecarPath;
    if e.id != r.id || e.scenarios != r.scenarios || e.limit != r.limit || !e.passed || !e.qualified {
      return false;
    }
    var commands, names := TargetColumns(e.targets);
    if commands != r.commands {
      return false;
    }
    var expected := ExpectedNames(r.commands, bindings);
    if expected.None? || names != expected.value {
      return false;
    }
    var paths := EvidencePaths(e.evidence);
    var sidecars := SidecarPaths(r.commands);
    if paths != sidecars {
      return false;
    }
    assert |names| == |e.targets| && |paths| == |e.evidence| && |sidecars| == |r.commands|;
    assert forall k :: 0 <= k < |r.commands| ==> commands[k] == e.targets[k].command && names[k] == e.targets[k].target;
    assert forall k :: 0 <= k < |r.commands| ==> paths[k] == e.evidence[k].path && sidecars[k] == SidecarPath(r.commands[k]);
    for k := 0 to |e.targets|
      invariant forall j :: 0 <= j < k ==> e.targets[j].passed && e.targets[j].qualified
    {
      if !e.targets[k].passed || !e.targets[k].qualified {
        return false;
      }
    }
    for k := 0 to |e.evidence|
      invariant forall j :: 0 <= j < k ==> e.evidence[j].passed && e.evidence[j].qualified
    {
      if !e.evidence[k].passed || !e.evidence[k].qualified {
        return false;
      }
    }
    return true;
  }

  method TargetColumns(rows: seq<TargetRow>) returns (commands: seq<string>, names: seq<string>)
    ensures |commands| == |names| == |rows|
    ensures forall k :: 0 <= k < |rows| ==> commands[k] == rows[k].command && names[k] == rows[k].target
  {
    commands, names := [], [];
    for k := 0 to |rows|
      invariant |commands| == |names| == k
      invariant forall j :: 0 <= j < k ==> commands[j] == rows[j].command && names[j] == rows[j].target
    {
      commands, names := commands + [rows[k].command], names + [rows[k].target];
    }
  }

  /** The joined targets of each command; a command without a binding raises. */
  method ExpectedNames(commands: seq<string>, bindings: map<string, Binding>) returns (r: Option<seq<string>>)
    ensures r.None? <==> exists k :: 0 <= k < |commands| && commands[k] !in bindings
    ensures r.Some? ==> |r.value| == |commands| && forall k :: 0 <= k < |commands| ==>
      commands[k] in bindings && r.value[k] == Joined(bindings[commands[k]].targets)
  {
    hide Joined;
    var names := [];
    for k := 0 to |commands|
      invariant |names| == k
      invariant forall j :: 0 <= j < k ==> commands[j] in bindings && names[j] == Joined(bindings[commands[j]].targets)
    {
      if commands[k] !in bindings {
        return None;
      }
      names := names + [Joined(bindings[commands[k]].targets)];
    }
    return Some(names);
  }

  method EvidencePaths(rows: seq<EvidenceRow>) returns (paths: seq<string>)
    ensures |paths| == |rows| && forall k :: 0 <= k < |rows| ==> paths[k] == rows[k].path
  {
    paths := [];
    for k := 0 to |rows|
      invariant |paths| == k && forall j :: 0 <= j < k ==> paths[j] == rows[j].path
    {
      paths := paths + [rows[k].path];
    }
  }

  method SidecarPaths(commands: seq<string>) returns (paths: seq<string>)
    ensures |paths| == |commands| && forall k :: 0 <= k < |commands| ==> paths[k] == SidecarPath(commands[k])
  {
    paths := [];
    for k := 0 to |commands|
      invariant |paths| == k && forall j :: 0 <= j < k ==> paths[j] == SidecarPath(commands[j])
    {
      paths := paths + [SidecarPath(commands[k])];
    }
  }

  /** The dictionary the artifact list must fold to. */
  method ExpectedArtifacts(m: Manifest, sidecars: Sidecars) returns (index: map<string, (string, int)>)
    ensures Covers(index, m, sidecars, sidecars.Keys)
  {
    index := map[MANIFEST_PATH := (m.digest, m.bytes)];
    var todo := sidecars.Keys;
    ghost var done: set<string> := {};
    assert Covers(index, m, sidecars, done);
    hide Covers, SidecarPath;
    while todo != {}
      invariant done !! todo && done + todo == sidecars.Keys && Covers(index, m, sidecars, done)
      decreases |todo|
    {
      var c :| c in todo;
      CoversStep(index, m, sidecars, done, c);
      index := index[SidecarPath(c) := (sidecars[c].digest, sidecars[c].bytes)];
      todo, done := todo - {c}, done + {c};
    }
    assert done == sidecars.Keys;
  }

  method FoldArtifacts(artifacts: seq<Artifact>) returns (index: map<string, (string, int)>)
    ensures index == ByPath(artifacts)
  {
    index := map[];
    assert artifacts[..0] == [];
    for i := 0 to |artifacts|
      invariant index == ByPath(artifacts[..i])
    {
      assert artifacts[..i + 1][..i] == artifacts[..i];
      index := index[artifacts[i].path := (artifacts[i].digest, artifacts[i].bytes)];
    }
    assert artifacts[..|artifacts|] == artifacts;
  }

  /** There is only one dictionary of exactly these files. */
  lemma CoversOnce(a: map<string, (string, int)>, b: map<string, (string, int)>, m: Manifest, sidecars: Sidecars)
    requires Covers(a, m, sidecars, sidecars.Keys)
    ensures Covers(b, m, sidecars, sidecars.Keys) <==> a == b
  {
    if Covers(b, m, sidecars, sidecars.Keys) {
      hide SidecarPath;
      assert a.Keys == b.Keys;
      forall p | p in a
        ensures a[p] == b[p]
      {
        if p != MANIFEST_PATH {
          var c :| c in sidecars && SidecarPath(c) == p;
        }
      }
    }
  }

  /** The checker: it compares lists and dictionaries, and stops at the first difference. */
  method VerifyTraceability(doc: Document, m: Manifest, root: string, sidecars: Sidecars) returns (ok: bool)
    ensures ok <==> Accepted(doc, m, root, sidecars)
  {
    hide EntryOk, Covers;
    if doc.schema != SCHEMA || doc.moduleId != MODULE || doc.manifest != MANIFEST_PATH || doc.manifestDigest != m.digest
       || doc.evidenceRoot != root || !doc.passed || !doc.qualified || !doc.valid || doc.failures != [] {
      return false;
    }
    var ids := Ids(m.requirements);
    if doc.requirementIds != ids || doc.conditional != m.conditional || |doc.entries| != |m.requirements| {
      return false;
    }
    var bindings := ByCommand(m.bindings);
    for i := 0 to |m.requirements|
      invariant forall j :: 0 <= j < i ==> EntryOk(doc.entries[j], m.requirements[j], bindings)
    {
      var entryOk := CheckEntry(doc.entries[i], m.requirements[i], bindings);
      if !entryOk {
        return false;
      }
    }
    var expected := ExpectedArtifacts(m, sidecars);
    var observed := FoldArtifacts(doc.artifacts);
    CoversOnce(expected, observed, m, sidecars);
    return observed == expected;
  }

  // ----- agreement -----

  predicate AllRequired(m: Manifest) { forall i :: 0 <= i < |m.bindings| ==> m.bindings[i].required }

  /** The sidecars some requirement refers to, PASS, and on request QUALIFIED too. */
  predicate Referenced(rs: seq<Requirement>, sidecars: Sidecars, qualified: bool) {
    forall i, k :: 0 <= i < |rs| && 0 <= k < |rs[i].commands| ==> Good(rs[i].commands[k], sidecars, qualified)
  }

  predicate Good(c: string, sidecars: Sidecars, qualified: bool) {
    c in sidecars && sidecars[c].passed && (qualified ==> sidecars[c].qualified)
  }

  lemma {:induction false} ByCommandNamed(bs: seq<Binding>)
    ensures Named(ByCommand(bs)) && forall c :: c in ByCommand(bs) ==> ByCommand(bs)[c] in bs
  {
    if bs != [] {
      ByCommandNamed(bs[..|bs| - 1]);
    }
  }

  /** Row `k` is about command `k` and carries its sidecar's verdict. */
  lemma {:induction false} RowsAgree(l: Loaded, r: Requirement, n: nat)
    requires n <= |r.commands| && RowsOf(l, r, n).Some? && Named(l.bindings)
    ensures var rows := RowsOf(l, r, n).value; |rows.0| == |rows.1| == n
    ensures var rows := RowsOf(l, r, n).value; forall k :: 0 <= k < n ==>
      && r.commands[k] in l.bindings && r.commands[k] in l.sidecars && rows.0[k].command == r.commands[k]
      && rows.0[k].target == Joined(l.bindings[r.commands[k]].targets) && rows.1[k].path == SidecarPath(r.commands[k])
      && rows.0[k].passed == rows.1[k].passed == l.sidecars[r.commands[k]].passed
      && rows.0[k].qualified == rows.1[k].qualified == l.sidecars[r.commands[k]].qualified
  {
    if n > 0 {
      RowsAgree(l, r, n - 1);
    }
  }

  predicate AllGood(r: Requirement, sidecars: Sidecars, qualified: bool) {
    forall k :: 0 <= k < |r.commands| ==> Good(r.commands[k], sidecars, qualified)
  }

  /** A written entry passes if its sidecars passed; the checker wants them qualified as well. */
  lemma EntryAgrees(l: Loaded, r: Requirement)
    requires RowsOf(l, r, |r.commands|).Some? && Named(l.bindings)
    ensures var e := EntryOf(r, RowsOf(l, r, |r.commands|).value);
      (EntryOk(e, r, l.bindings) <==> AllGood(r, l.sidecars, true)) && (e.passed <==> AllGood(r, l.sidecars, false))
  {
    RowsAgree(l, r, |r.commands|);
    hide RowsOf, Joined, SidecarPath;
    var e := EntryOf(r, RowsOf(l, r, |r.commands|).value);
    if EntryOk(e, r, l.bindings) {
      forall k | 0 <= k < |r.commands|
        ensures Good(r.commands[k], l.sidecars, true)
      {
        assert e.targets[k].passed && e.targets[k].qualified;
      }
    }
    if AllGood(r, l.sidecars, true) {
      assert forall k :: 0 <= k < |r.commands| ==> Good(r.commands[k], l.sidecars, true);
    }
    if e.passed {
      forall k | 0 <= k < |r.commands|
        ensures Good(r.commands[k], l.sidecars, false)
      {
        assert e.targets[k].passed;
      }
    }
  }

  lemma {:induction false} EntriesAgree(l: Loaded, rs: seq<Requirement>)
    requires EntriesOf(l, rs).Some? && Named(l.bindings)
    ensures var es := EntriesOf(l, rs).value; |es| == |rs| && forall i :: 0 <= i < |rs| ==>
      && (EntryOk(es[i], rs[i], l.bindings) <==> AllGood(rs[i], l.sidecars, true))
      && (es[i].passed <==> AllGood(rs[i], l.sidecars, false))
  {
    hide RowsOf, EntryOk, AllGood;
    if rs != [] {
      var n := |rs| - 1;
      EntriesAgree(l, rs[..n]);
      EntryAgrees(l, rs[n]);
    }
  }

  lemma ReferencedByAll(rs: seq<Requirement>, sidecars: Sidecars, qualified: bool)
    ensures Referenced(rs, sidecars, qualified) <==> forall i :: 0 <= i < |rs| ==> AllGood(rs[i], sidecars, qualified)
  {
    hide Good;
  }

  lemma GoodIsPassed(rs: seq<Requirement>, sidecars: Sidecars)
    requires Referenced(rs, sidecars, true)
    ensures Referenced(rs, sidecars, false)
  {
    forall i, k | 0 <= i < |rs| && 0 <= k < |rs[i].commands|
      ensures Good(rs[i].commands[k], sidecars, false)
    {
      assert Good(rs[i].commands[k], sidecars, true);
    }
  }

  /** A written entry repeats its requirement, and row `k` has everything from the sidecar of command `k`. */
  predicate Tells(e: Entry, r: Requirement, files: Sidecars) {
    && e.id == r.id && e.scenarios == r.scenarios && e.limit == r.limit && |e.targets| == |e.evidence| == |r.commands|
    && (forall k :: 0 <= k < |r.commands| ==> RowTells(e, r, files, k))
    && (e.passed <==> forall k :: 0 <= k < |r.commands| ==> r.commands[k] in files && files[r.commands[k]].passed)
    && e.qualified == e.passed
  }

  predicate RowTells(e: Entry, r: Requirement, files: Sidecars, k: nat)
    requires k < |r.commands| == |e.targets| == |e.evidence|
  {
    var c := r.commands[k];
    && c in files && r.scenarios != [] && e.targets[k].command == c
    && e.targets[k].passed == files[c].passed && e.targets[k].qualified == files[c].qualified
    && e.evidence[k] == EvidenceRow(c + ".command.json", files[c].schema, r.scenarios[0], r.id, files[c].passed, files[c].qualified)
  }

  lemma {:induction false} RowsTell(l: Loaded, r: Requirement, n: nat, k: nat)
    requires k < n <= |r.commands| && RowsOf(l, r, n).Some? && Named(l.bindings)
    ensures var rows, c := RowsOf(l, r, n).value, r.commands[k];
      && |rows.0| == |rows.1| == n && c in l.sidecars && r.scenarios != []
      && rows.0[k].command == c && rows.0[k].passed == l.sidecars[c].passed && rows.0[k].qualified == l.sidecars[c].qualified
      && rows.1[k] == EvidenceRow(c + ".command.json", l.sidecars[c].schema, r.scenarios[0], r.id,
                                  l.sidecars[c].passed, l.sidecars[c].qualified)
  {
    RowsAgree(l, r, n);
    if k < n - 1 {
      RowsTell(l, r, n - 1, k);
    }
  }

  lemma {:induction false} EntryTells(l: Loaded, r: Requirement, files: Sidecars)
    requires RowsOf(l, r, |r.commands|).Some? && Named(l.bindings)
    requires forall c :: c in l.sidecars ==> c in files && l.sidecars[c] == files[c]
    ensures Tells(EntryOf(r, RowsOf(l, r, |r.commands|).value), r, files)
  {
    var rows := RowsOf(l, r, |r.commands|).value;
    var e := EntryOf(r, rows);
    RowsAgree(l, r, |r.commands|);
    forall k | 0 <= k < |r.commands|
      ensures RowTells(e, r, files, k)
    {
      RowsTell(l, r, |r.commands|, k);
    }
    hide RowsOf, Named, Joined;
    if forall k :: 0 <= k < |r.commands| ==> r.commands[k] in files && files[r.commands[k]].passed {
      forall k | 0 <= k < |rows.0|
        ensures rows.0[k].passed
      {
        assert RowTells(e, r, files, k);
      }
    }
  }

  lemma {:induction false} EntriesTell(l: Loaded, rs: seq<Requirement>, files: Sidecars)
    requires EntriesOf(l, rs).Some? && Named(l.bindings)
    requires forall c :: c in l.sidecars ==> c in files && l.sidecars[c] == files[c]
    ensures var es := EntriesOf(l, rs).value; |es| == |rs| && forall i :: 0 <= i < |rs| ==> Tells(es[i], rs[i], files)
  {
    hide RowsOf, Tells, Named;
    if rs != [] {
      EntriesTell(l, rs[..|rs| - 1], files);
      EntryTells(l, rs[|rs| - 1], files);
    }
  }

  lemma {:induction false} IdsAt(rs: seq<Requirement>, i: nat)
    requires i < |rs|
    ensures |Ids(rs)| == |rs| && Ids(rs)[i] == rs[i].id
    decreases |rs|
  {
    if |rs| > 1 {
      IdsAt(rs[..|rs| - 1], if i < |rs| - 1 then i else 0);
    } else {
      assert rs[..0] == [];
    }
  }

  /** A written document says of each requirement, in the order of the manifest, what the run directory holds. */
  lemma BuiltTells(doc: Document, m: Manifest, files: Sidecars, root: string)
    requires Built(doc, m, files, root)
    ensures |doc.entries| == |m.requirements| && forall i :: 0 <= i < |m.requirements| ==> Tells(doc.entries[i], m.requirements[i], files)
    ensures |doc.requirementIds| == |m.requirements|
    ensures forall i :: 0 <= i < |m.requirements| ==> doc.requirementIds[i] == m.requirements[i].id
    ensures doc.passed == doc.qualified == doc.valid && (doc.failures == [] <==> doc.valid) && doc.evidenceRoot == root
  {
    var l := LoadedOf(m, files);
    ByCommandNamed(m.bindings);
    EntriesTell(l, m.requirements, files);
    hide EntriesOf, Tells, ListsArtifacts, ByCommand;
    if m.requirements == [] {
      NoIds();
    } else {
      IdsAt(m.requirements, 0);
    }
    forall i | 0 <= i < |m.requirements|
      ensures |Ids(m.requirements)| == |m.requirements| && Ids(m.requirements)[i] == m.requirements[i].id
    {
      IdsAt(m.requirements, i);
    }
  }

  lemma NoIds()
    ensures Ids([]) == []
  {
  }

  /** Targets are joined by commas, and a command stands for its last binding. */
  lemma {:induction false} JoinedConcat(a: seq<string>, b: seq<string>)
    requires a != [] && b != []
    ensures Joined(a + b) == Joined(a) + "," + Joined(b)
  {
    if |a| == 1 {
      assert (a + b)[0] == a[0] && (a + b)[1..] == b;
    } else {
      JoinedConcat(a[1..], b);
      assert (a + b)[0] == a[0] && (a + b)[1..] == a[1..] + b;
    }
  }

  lemma {:induction false} LastBinding(bs: seq<Binding>, i: nat)
    requires i < |bs| && forall j :: i < j < |bs| ==> bs[j].command != bs[i].command
    ensures bs[i].command in ByCommand(bs) && ByCommand(bs)[bs[i].command] == bs[i]
    decreases |bs|
  {
    if i < |bs| - 1 {
      LastBinding(bs[..|bs| - 1], i);
    }
  }

  /**
   What the builder writes as valid is that every referenced sidecar is PASS; what
   the checker accepts is that every one is PASS and QUALIFIED.  The two verdicts on
   a built document are exact, and differ on a sidecar that is one but not the other.
   */
  lemma BuiltIsAccepted(doc: Document, m: Manifest, files: Sidecars, root: string)
    requires Built(doc, m, files, root)
    ensures var sidecars := LoadedOf(m, files).sidecars;
      && (doc.valid <==> Referenced(m.requirements, sidecars, false))
      && (Accepted(doc, m, root, sidecars) <==> Referenced(m.requirements, sidecars, true))
      && (AllRequired(m) ==> sidecars.Keys == ByCommand(m.bindings).Keys)
  {
    var l := LoadedOf(m, files);
    ByCommandNamed(m.bindings);
    if AllRequired(m) {
      forall c | c in l.bindings
        ensures c in files
      {
        assert l.bindings[c] in m.bindings;
      }
    }
    EntriesAgree(l, m.requirements);
    ReferencedByAll(m.requirements, l.sidecars, true);
    ReferencedByAll(m.requirements, l.sidecars, false);
    hide EntriesOf, EntryOk, ListsArtifacts, ByCommand, AllGood, Referenced;
    if Referenced(m.requirements, l.sidecars, true) {
      GoodIsPassed(m.requirements, l.sidecars);
    }
  }
}
