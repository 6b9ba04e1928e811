/**
 Completion of the edge module, recomputed from direct evidence: command states
 behind a memo cache, twelve criteria over the documents of one run tree, and the
 blocker list with its repair for evidence that is gone when it is digested.
 */
module Completion {
  import opened Prelude
  import opened JsonValue
  import opened Paths

  datatype State = Pass | Hold | Fail | NotRun

  datatype Criterion =
    | PublicContracts | FormatLintStatic | UnitPropertyContract | ReleaseBinary | RealBinaryPublicBoundary
    | OsFaultRecovery | RealOciStartup | DeepRuntimeChecks | SupplySecurityChecks | FormalSoak | Traceability | KnownP0Zero

  const CRITERIA: seq<Criterion> := [
    PublicContracts, FormatLintStatic, UnitPropertyContract, ReleaseBinary, RealBinaryPublicBoundary, OsFaultRecovery,
    RealOciStartup, DeepRuntimeChecks, SupplySecurityChecks, FormalSoak, Traceability, KnownP0Zero]

  /** Artifacts whose digests the report carries. */
  datatype Artifact =
    | PublicContractsLog | RustcVersion | CargoVersion | Format | Clippy | Tests | Blackbox | ReleaseBuild | OsFaults
    | Oci | Deep | Supply | Soak | SoakValidation | TraceabilitySummary

  const ARTIFACTS: seq<Artifact> := [
    PublicContractsLog, RustcVersion, CargoVersion, Format, Clippy, Tests, Blackbox, ReleaseBuild, OsFaults, Oci, Deep,
    Supply, Soak, SoakValidation, TraceabilitySummary]

  /** Where the artifact lies in the run tree. */
  function ArtifactPath(a: Artifact): string {
    match a
    case PublicContractsLog => SidecarPath("public-contracts")
    case RustcVersion => SidecarPath("rustc-version")
    case CargoVersion => SidecarPath("cargo-version")
    case Format => SidecarPath("format")
    case Clippy => SidecarPath("clippy")
    case Tests => SidecarPath("tests")
    case Blackbox => BLACKBOX
    case ReleaseBuild => SidecarPath("release-build")
    case OsFaults => SidecarPath("os-faults")
    case Oci => OCI
    case Deep => DEEP
    case Supply => SUPPLY
    case Soak => SOAK
    case SoakValidation => SidecarPath("formal-soak-validation")
    case TraceabilitySummary => TRACE_SUMMARY
  }

  const BLACKBOX: string := "module-blackbox/module-blackbox-e2e.json"
  const ENOSPC: string := "module-blackbox/os-enospc.json"
  const FD_EXHAUSTION: string := "module-blackbox/os-fd-exhaustion.json"
  const OCI: string := "oci-smoke/oci-smoke-evidence.json"
  const DEEP: string := "deep-checks/deep-check-summary.json"
  const SUPPLY: string := "supply-chain/supply-chain.json"
  const SOAK: string := "formal-soak/soak-evidence.json"
  const TRACE_SUMMARY: string := "traceability-summary.json"

  function SidecarPath(command: string): string { command + ".command.json" }

  /** The criterion a missing artifact is charged to. */
  function Owner(a: Artifact): Criterion {
    match a
    case PublicContractsLog => PublicContracts
    case RustcVersion | CargoVersion | Format | Clippy => FormatLintStatic
    case Tests => UnitPropertyContract
    case Blackbox => RealBinaryPublicBoundary
    case ReleaseBuild => ReleaseBinary
    case OsFaults => OsFaultRecovery
    case Oci => RealOciStartup
    case Deep => DeepRuntimeChecks
    case Supply => SupplySecurityChecks
    case Soak | SoakValidation => FormalSoak
    case TraceabilitySummary => Traceability
  }

  // ----- the run tree -----

  /** A direct regular file; `document` is the JSON object it loads as, if it does. */
  datatype File = File(digest: string, bytes: nat, document: Option<Json>)

  type Tree = map<string, File>

  /** A schema from the repository, absent if it cannot be loaded; it says whether a document conforms. */
  type Schema = Option<Json -> bool>

  /** What the deriver is told, and the parts of the repository it consults. */
  datatype Setting = Setting(
    runId: string, sourceDigest: string, statusDigest: string, dirty: bool,
    commandSchema: Schema, blackboxSchema: Schema, edgeSchema: Schema, findingsSchema: Schema, traceSchema: Schema,
    soakValidator: File -> bool,          // the soak validator's verdict on a file
    binaryPresent: bool, manifestDigest: string, findings: Option<Json>)

  predicate Conforms(schema: Schema, doc: Json) { schema.Some? && schema.value(doc) }

  function StateName(s: State): string {
    match s case Pass => "PASS" case Hold => "HOLD" case Fail => "FAIL" case NotRun => "NOT_RUN"
  }

  /** The state a result names; anything else counts as a failure. */
  function StateOf(result: Json): State {
    if result == Text("PASS") then Pass else if result == Text("HOLD") then Hold
    else if result == Text("NOT_RUN") then NotRun else Fail
  }

  /** Equality with an integer as the deriver's language has it: true is 1 and false is 0. */
  predicate Equals(j: Json, n: int) {
    j == Number(n) || (n == 1 && j == Boolean(true)) || (n == 0 && j == Boolean(false))
  }

  predicate IsPositive(j: Json) { (j.Number? && j.n > 0) || j == Boolean(true) }

  predicate Says(doc: Json, name: string, text: string) { Field(doc, name) == Text(text) }

  // ----- command states -----

  /**
   The file a relative path leads to: empty and "." components drop out, and an
   absolute path, a ".." or a path without components leads nowhere.
   */
  function Direct(tree: Tree, path: string): (r: Option<string>)
    ensures r.Some? ==> r.value in tree
  {
    var parts := Kept(Split(path));
    if IsAbsolute(path) || parts == [] || ".." in parts || Join(parts) !in tree then None else Some(Join(parts))
  }

  /** A file named in the one spelling a canonical path has leads to itself. */
  lemma DirectCanonical(tree: Tree, path: string)
    requires AllProper(Split(path))
    ensures Direct(tree, path) == if path in tree then Some(path) else None
  {
    var cs := Split(path);
    KeptFacts(cs);
    JoinSplit(path);
    assert forall c :: c in cs ==> Proper(c);
    assert Kept(cs) == cs;
    assert ".." !in cs && cs != [];
  }

  predicate Consistent(g: Setting, tree: Tree, id: string, doc: Json) {
    var log := Field(doc, "log");
    && Says(doc, "run_id", g.runId) && Says(doc, "command_id", id)
    && Says(doc, "source_tree_digest", g.sourceDigest) && Says(doc, "working_tree_status_digest", g.statusDigest)
    && Field(log, "path").Text? && Direct(tree, Field(log, "path").s).Some?
    && var file := tree[Direct(tree, Field(log, "path").s).value];
       Says(log, "sha256", file.digest) && Equals(Field(log, "bytes"), file.bytes) && Says(log, "media_type", "text/plain")
  }

  /** The state of a command read afresh from the run tree. */
  function Fresh(g: Setting, tree: Tree, id: string): State {
    var p := SidecarPath(id);
    if p !in tree || tree[p].document.None? || !Conforms(g.commandSchema, tree[p].document.value) then Fail
    else if !Consistent(g, tree, id, tree[p].document.value) then Fail
    else StateOf(Field(tree[p].document.value, "result"))
  }

  function Combine(states: seq<State>): State {
    if exists i :: 0 <= i < |states| && states[i] == Fail then Fail
    else if exists i :: 0 <= i < |states| && states[i] == NotRun then NotRun
    else if forall i :: 0 <= i < |states| ==> states[i] == Pass then Pass
    else Fail
  }

  function FreshAll(g: Setting, tree: Tree, ids: seq<string>): seq<State> {
    if ids == [] then [] else FreshAll(g, tree, ids[..|ids| - 1]) + [Fresh(g, tree, ids[|ids| - 1])]
  }

  lemma {:induction false} FreshAllAt(g: Setting, tree: Tree, ids: seq<string>, i: nat)
    requires i < |ids|
    ensures |FreshAll(g, tree, ids)| == |ids| && FreshAll(g, tree, ids)[i] == Fresh(g, tree, ids[i])
    decreases |ids|
  {
    if |ids| > 1 {
      FreshAllAt(g, tree, ids[..|ids| - 1], if i < |ids| - 1 then i else 0);
    } else {
      assert ids[..0] == [];
    }
  }

  /** The sidecar of a command conforms, is of this run and its log, and says this. */
  predicate SidecarSays(g: Setting, tree: Tree, id: string, result: string) {
    var p := SidecarPath(id);
    && p in tree && tree[p].document.Some? && Conforms(g.commandSchema, tree[p].document.value)
    && Consistent(g, tree, id, tree[p].document.value) && Says(tree[p].document.value, "result", result)
  }

  predicate SaysPass(g: Setting, tree: Tree, id: string) { SidecarSays(g, tree, id, "PASS") }

  /** Each state of a command but failure stands for what its sidecar says; all else is a failure. */
  lemma StatesExactly(g: Setting, tree: Tree, id: string)
    ensures Fresh(g, tree, id) == Pass <==> SidecarSays(g, tree, id, "PASS")
    ensures Fresh(g, tree, id) == Hold <==> SidecarSays(g, tree, id, "HOLD")
    ensures Fresh(g, tree, id) == NotRun <==> SidecarSays(g, tree, id, "NOT_RUN")
    ensures Fresh(g, tree, id) == Fail <==>
      !SidecarSays(g, tree, id, "PASS") && !SidecarSays(g, tree, id, "HOLD") && !SidecarSays(g, tree, id, "NOT_RUN")
  {
    hide Consistent;
    assert "PASS"[0] != "HOLD"[0] && "PASS"[0] != "NOT_RUN"[0] && "HOLD"[0] != "NOT_RUN"[0];
  }

  lemma PassSays(g: Setting, tree: Tree, id: string)
    ensures Fresh(g, tree, id) == Pass <==> SaysPass(g, tree, id)
  {
    StatesExactly(g, tree, id);
    hide Fresh, SidecarSays;
  }

  /** A failure outranks what was not run, and that outranks the rest; a group that merely holds has failed. */
  lemma CombinesExactly(states: seq<State>)
    ensures Combine(states) == Fail <==> Fail in states || (Hold in states && NotRun !in states)
    ensures Combine(states) == NotRun <==> NotRun in states && Fail !in states
    ensures Combine(states) == Pass <==> forall i :: 0 <= i < |states| ==> states[i] == Pass
    ensures Combine(states) != Hold
  {
    if Combine(states) == Fail && Fail !in states && NotRun !in states {
      var i :| 0 <= i < |states| && states[i] != Pass;
      assert states[i] in states;
    }
  }

  /** A group passes exactly if every sidecar in it does. */
  lemma GroupPasses(g: Setting, tree: Tree, ids: seq<string>)
    ensures Combine(FreshAll(g, tree, ids)) == Pass <==> forall i :: 0 <= i < |ids| ==> SaysPass(g, tree, ids[i])
  {
    var states := FreshAll(g, tree, ids);
    hide FreshAll, Fresh, SaysPass;
    forall i | 0 <= i < |ids|
      ensures |states| == |ids| && (states[i] == Pass <==> SaysPass(g, tree, ids[i]))
    {
      FreshAllAt(g, tree, ids, i);
      PassSays(g, tree, ids[i]);
    }
    if ids == [] {
      NoCommands(g, tree);
    } else {
      FreshAllAt(g, tree, ids, 0);
    }
  }

  lemma NoCommands(g: Setting, tree: Tree)
    ensures FreshAll(g, tree, []) == []
  {
  }

  // ----- nested checks -----

  predicate AllTrue(c: Json)
    decreases c
  {
    c.Obj? && c.fields != map[] &&
    forall k :: k in c.fields ==> if c.fields[k].Obj? then AllTrue(c.fields[k]) else c.fields[k] == Boolean(true)
  }

  /** The check found by following names from the top. */
  function Sub(c: Json, path: seq<string>): Option<Json>
    decreases |path|
  {
    if path == [] then Some(c)
    else if c.Obj? && path[0] in c.fields then Sub(c.fields[path[0]], path[1..])
    else None
  }

  predicate Good(c: Json) { if c.Obj? then c.fields != map[] else c == Boolean(true) }

  ghost predicate EveryPathGood(c: Json) {
    forall path :: Sub(c, path).Some? ==> Good(Sub(c, path).value)
  }

  lemma {:induction false} AllTrueSound(c: Json, path: seq<string>)
    requires AllTrue(c) && Sub(c, path).Some?
    ensures Good(Sub(c, path).value)
    decreases |path|
  {
    if path != [] && c.fields[path[0]].Obj? {
      AllTrueSound(c.fields[path[0]], path[1..]);
    }
  }

  lemma {:induction false} AllTrueComplete(c: Json)
    requires c.Obj? && EveryPathGood(c)
    ensures AllTrue(c)
    decreases c
  {
    assert Sub(c, []) == Some(c);
    forall k | k in c.fields
      ensures if c.fields[k].Obj? then AllTrue(c.fields[k]) else c.fields[k] == Boolean(true)
    {
      var d := c.fields[k];
      forall path | Sub(d, path).Some?
        ensures Good(Sub(d, path).value)
      {
        assert ([k] + path)[1..] == path;
        assert Sub(c, [k] + path) == Sub(d, path);
      }
      assert Sub(d, []) == Some(d);
      if d.Obj? {
        AllTrueComplete(d);
      }
    }
  }

  /** The walk accepts exactly the trees in which every leaf is true and no group, at any depth, is empty. */
  lemma AllTrueExactly(c: Json)
    ensures AllTrue(c) <==> c.Obj? && EveryPathGood(c)
  {
    if AllTrue(c) {
      forall path | Sub(c, path).Some?
        ensures Good(Sub(c, path).value)
      {
        AllTrueSound(c, path);
      }
    }
    if c.Obj? && EveryPathGood(c) {
      AllTrueComplete(c);
    }
  }

  // ----- what the documents must say -----

  /** The document at a path, if it is there, loads and conforms. */
  function Evidence(tree: Tree, p: string, schema: Schema): Option<Json> {
    if p in tree && tree[p].document.Some? && Conforms(schema, tree[p].document.value) then tree[p].document else None
  }

  predicate BlackboxExact(v: Json) {
    && Says(v, "schema_version", "edge-module-e2e-evidence/v1") && Says(v, "test_id", "TEST-EDGE-MODULE-E2E-001")
    && Says(v, "level", "MODULE") && Says(v, "result", "PASS") && Says(v, "qualification", "QUALIFIED")
    && Says(v, "edge_process", "real Cargo-built masi-edge OS process")
    && Says(v, "neighbor_boundary", "deterministic independent mTLS fakes") && Equals(Field(v, "target_count"), 2)
    && Equals(Field(v, "maximum_active_streams_per_device"), 1) && Field(v, "central_retry_identity_stable") == Boolean(true)
    && Field(v, "canonical_commit_retry_digest_stable") == Boolean(true)
    && Field(v, "same_generation_equivalent_worker_retry") == Boolean(true)
    && Equals(Field(v, "effect_expected_entries"), 128) && Equals(Field(v, "effect_observed_entries"), 128)
  }

  predicate EnospcExact(v: Json) {
    && Says(v, "test_id", "TEST-EDGE-OS-ENOSPC-001") && Says(v, "level", "MODULE") && Says(v, "result", "PASS")
    && Says(v, "qualification", "QUALIFIED") && Equals(Field(v, "errno"), 28) && Field(v, "process_live") == Boolean(true)
    && Says(v, "reason_code", "LOCAL_IO") && Field(v, "unacknowledged_overwrite") == Boolean(false)
  }

  predicate FdExact(v: Json) {
    && Says(v, "test_id", "TEST-EDGE-OS-FD-EXHAUSTION-001") && Says(v, "level", "MODULE") && Says(v, "result", "PASS")
    && Says(v, "qualification", "QUALIFIED") && Equals(Field(v, "configured_nofile"), 128)
    && Field(v, "process_live") == Boolean(true) && Says(v, "reason_code", "LOCAL_IO")
    && Field(v, "target_profile_overcommitted") == Boolean(false) && IsPositive(Field(v, "admitted_targets_before_exhaustion"))
  }

  predicate PassOrHold(v: Json) { Says(v, "result", "PASS") || Says(v, "result", "HOLD") }

  predicate OciExact(v: Json) {
    var checks, probe, archive := Field(v, "checks"), Field(v, "probe"), Field(v, "archive");
    && Says(v, "schema_version", "edge-oci-startup-evidence/v1") && PassOrHold(v)
    && checks.Obj? && |checks.fields| == 10 && (forall k :: k in checks.fields ==> checks.fields[k] == Text("PASS"))
    && probe.Obj? && Says(probe, "result", "PASS") && Field(probe, "process_live") == Boolean(true)
    && Field(probe, "accepting_assignments") == Boolean(true)
    && Says(probe, "rpc_method", "masi.edge.v1.EdgeControl/GetStatus")
    && Field(probe, "config_digest") == Field(v, "config_digest") && Field(v, "read_only_rootfs") == Boolean(true)
    && Equals(Field(v, "graceful_shutdown_exit_code"), 0)
    && archive.Obj? && Field(archive, "manifest_digest") == Field(v, "image_manifest_digest")
    && Field(archive, "image_manifest_descriptor_digest") == Field(v, "image_manifest_digest")
    && Field(archive, "config_digest") == Field(v, "image_config_digest")
    && Field(archive, "binary_digest") == Field(v, "image_binary_digest")
  }

  predicate DeepExact(v: Json) {
    && Says(v, "schema_version", "edge-deep-check-evidence/v1") && PassOrHold(v)
    && Field(v, "checks") == Obj(map["miri_disable_isolation" := Text("PASS"), "address_sanitizer" := Text("PASS"),
                                     "thread_sanitizer" := Text("PASS")])
  }

  predicate SupplyExact(v: Json) {
    var negative, findings := Field(v, "negative_verification"), Field(Field(v, "trivy"), "findings");
    && Says(v, "schema_version", "rust-edge-agent-supply-verification/v1") && PassOrHold(v)
    && AllTrue(Field(v, "checks")) && Field(v, "failure_reasons") == Arr([])
    && IsPositive(Field(negative, "mutated_exit_code")) && IsPositive(Field(negative, "wrong_publisher_exit_code"))
    && Field(findings, "critical") == Arr([]) && Field(findings, "fixable_high") == Arr([])
    && Field(findings, "misconfig_high_critical") == Arr([]) && Field(findings, "secrets") == Arr([])
  }

  const ZERO_COUNTS: seq<string> := [
    "error_count", "unclassified_gap_count", "oom_events", "container_restarts", "oracle_mismatches",
    "resource_limit_violations"]

  predicate SoakExact(v: Json) {
    var summary, cleanup := Field(v, "summary"), Field(v, "cleanup");
    && Says(v, "module", "rust-edge-agent") && Says(v, "level", "MODULE") && PassOrHold(v)
    && Field(v, "qualified_elapsed_ms").Number? && Field(v, "qualified_elapsed_ms").n >= 3_600_000
    && Says(v, "interruption", "NONE")
    && (forall i :: 0 <= i < |ZERO_COUNTS| ==> Equals(Field(summary, ZERO_COUNTS[i]), 0))
    && Field(cleanup, "attempted") == Boolean(true) && Field(cleanup, "completed") == Boolean(true)
    && Equals(Field(cleanup, "exit_code"), 0) && Field(cleanup, "remaining_resources") == Arr([])
  }

  predicate TraceExact(g: Setting, v: Json) {
    && Says(v, "module_id", "MOD-EDGE-001") && Says(v, "result", "PASS") && Field(v, "valid") == Boolean(true)
    && Field(v, "failures") == Arr([]) && Says(v, "manifest_digest", g.manifestDigest)
  }

  /** An open P0 in the findings registry. */
  predicate OpenP0(f: Json) { Says(f, "severity", "P0") && Says(f, "status", "OPEN") }

  function Registered(registry: Json): seq<Json> {
    var list := Field(registry, "findings"); if list.Arr? then list.items else []
  }

  predicate NoOpenP0(registry: Json) { forall i :: 0 <= i < |Registered(registry)| ==> !OpenP0(Registered(registry)[i]) }

  // ----- criteria -----

  const FORMAT_LINT: seq<string> := ["rustc-version", "cargo-version", "format", "clippy"]
  const UNIT: seq<string> := [
    "tests", "performance-rehearsal", "soak-rehearsal-validation", "soak-validator-negative-cases",
    "module-gate-runner-negative-cases"]
  const TRACE: seq<string> := ["traceability", "traceability-validator-negative-cases", "traceability-evidence"]

  /** What it takes for a criterion to pass, read off the run tree in one go. */
  predicate Met(g: Setting, tree: Tree, c: Criterion) {
    match c
    case PublicContracts => SaysPass(g, tree, "public-contracts")
    case FormatLintStatic => forall i :: 0 <= i < |FORMAT_LINT| ==> SaysPass(g, tree, FORMAT_LINT[i])
    case UnitPropertyContract => forall i :: 0 <= i < |UNIT| ==> SaysPass(g, tree, UNIT[i])
    case ReleaseBinary => SaysPass(g, tree, "release-build") && g.binaryPresent
    case RealBinaryPublicBoundary => SaysPass(g, tree, "tests") && Shows(tree, BLACKBOX, g.blackboxSchema, v => BlackboxExact(v))
    case OsFaultRecovery =>
      && SaysPass(g, tree, "os-faults") && Shows(tree, ENOSPC, g.blackboxSchema, v => EnospcExact(v))
      && Shows(tree, FD_EXHAUSTION, g.blackboxSchema, v => FdExact(v))
    case RealOciStartup => MayHold(g, tree, "oci-smoke", OCI, v => OciExact(v))
    case DeepRuntimeChecks => MayHold(g, tree, "deep-checks", DEEP, v => DeepExact(v))
    case SupplySecurityChecks => MayHold(g, tree, "supply-chain", SUPPLY, v => SupplyExact(v))
    case FormalSoak =>
      && SaysPass(g, tree, "formal-soak") && SaysPass(g, tree, "formal-soak-validation")
      && SoakShows(g, tree)
    case Traceability =>
      && (forall i :: 0 <= i < |TRACE| ==> SaysPass(g, tree, TRACE[i]))
      && Shows(tree, TRACE_SUMMARY, g.traceSchema, v => TraceExact(g, v))
    case KnownP0Zero => RegistryClean(g)
  }

  predicate SoakShows(g: Setting, tree: Tree) {
    SOAK in tree && g.soakValidator(tree[SOAK]) && tree[SOAK].document.Some? && SoakExact(tree[SOAK].document.value)
  }

  predicate RegistryClean(g: Setting) {
    g.findings.Some? && Conforms(g.findingsSchema, g.findings.value) && NoOpenP0(g.findings.value)
  }

  predicate Shows(tree: Tree, p: string, schema: Schema, exact: Json -> bool) {
    Evidence(tree, p, schema).Some? && exact(Evidence(tree, p, schema).value)
  }

  /** A command that passed or held, and a document that says the same of this very source and meets its demands. */
  predicate MayHold(g: Setting, tree: Tree, id: string, p: string, exact: Json -> bool) {
    && Shows(tree, p, g.edgeSchema, exact) && OfThisSource(g, Evidence(tree, p, g.edgeSchema).value)
    && var v := Evidence(tree, p, g.edgeSchema).value;
       || (SidecarSays(g, tree, id, "PASS") && Says(v, "result", "PASS"))
       || (SidecarSays(g, tree, id, "HOLD") && Says(v, "result", "HOLD"))
  }

  predicate OfThisSource(g: Setting, v: Json) {
    && Says(v, "source_tree_digest", g.sourceDigest) && Says(v, "working_tree_status_digest", g.statusDigest)
    && Field(v, "working_tree_dirty") == Boolean(g.dirty)
  }

  predicate Bound(g: Setting, v: Json, state: State) { Says(v, "result", StateName(state)) && OfThisSource(g, v) }

  /** The supply criterion passes only if every leaf of the nested check tree is true. */
  lemma SupplyNeedsEveryCheck(g: Setting, tree: Tree, path: seq<string>)
    requires Met(g, tree, SupplySecurityChecks)
    ensures Evidence(tree, SUPPLY, g.edgeSchema).Some?
    ensures var checks := Field(Evidence(tree, SUPPLY, g.edgeSchema).value, "checks");
      Sub(checks, path).Some? ==> Good(Sub(checks, path).value)
  {
    var checks := Field(Evidence(tree, SUPPLY, g.edgeSchema).value, "checks");
    assert AllTrue(checks);
    hide SupplyExact;
    if Sub(checks, path).Some? {
      AllTrueSound(checks, path);
    }
  }

  // ----- evidence that passed is evidence that is there -----

  /** Every artifact of the report is a file its own criterion had to read in order to pass. */
  lemma PassedIsPresent(g: Setting, tree: Tree, a: Artifact)
    requires Met(g, tree, Owner(a))
    ensures ArtifactPath(a) in tree
  {
    hide Consistent, BlackboxExact, OciExact, DeepExact, SupplyExact, SoakExact, TraceExact;
    match a
    case RustcVersion => assert SaysPass(g, tree, FORMAT_LINT[0]);
    case CargoVersion => assert SaysPass(g, tree, FORMAT_LINT[1]);
    case Format => assert SaysPass(g, tree, FORMAT_LINT[2]);
    case Clippy => assert SaysPass(g, tree, FORMAT_LINT[3]);
    case Tests => assert SaysPass(g, tree, UNIT[0]);
    case _ =>
  }

  // ----- the four-valued judgement -----

  function Needs(command: State, exact: bool): State {
    if command == NotRun then NotRun else if command == Pass && exact then Pass else Fail
  }

  function HoldNeeds(g: Setting, tree: Tree, command: State, p: string, exact: Json -> bool): State {
    if command == NotRun then NotRun
    else if command != Pass && command != Hold then Fail
    else if Shows(tree, p, g.edgeSchema, exact) && Bound(g, Evidence(tree, p, g.edgeSchema).value, command) then Pass
    else Fail
  }

  /** Each criterion from the run tree, without a cache: NOT_RUN where the command was not run, otherwise PASS or FAIL. */
  function Judge(g: Setting, tree: Tree, c: Criterion): State {
    match c
    case PublicContracts => Combine(FreshAll(g, tree, ["public-contracts"]))
    case FormatLintStatic => Combine(FreshAll(g, tree, FORMAT_LINT))
    case UnitPropertyContract => Combine(FreshAll(g, tree, UNIT))
    case ReleaseBinary => Needs(Fresh(g, tree, "release-build"), g.binaryPresent)
    case RealBinaryPublicBoundary =>
      Needs(Fresh(g, tree, "tests"), Shows(tree, BLACKBOX, g.blackboxSchema, v => BlackboxExact(v)))
    case OsFaultRecovery =>
      Needs(Fresh(g, tree, "os-faults"),
            Shows(tree, ENOSPC, g.blackboxSchema, v => EnospcExact(v)) && Shows(tree, FD_EXHAUSTION, g.blackboxSchema, v => FdExact(v)))
    case RealOciStartup => HoldNeeds(g, tree, Fresh(g, tree, "oci-smoke"), OCI, v => OciExact(v))
    case DeepRuntimeChecks => HoldNeeds(g, tree, Fresh(g, tree, "deep-checks"), DEEP, v => DeepExact(v))
    case SupplySecurityChecks => HoldNeeds(g, tree, Fresh(g, tree, "supply-chain"), SUPPLY, v => SupplyExact(v))
    case FormalSoak =>
      var execution, validation := Fresh(g, tree, "formal-soak"), Fresh(g, tree, "formal-soak-validation");
      if execution == NotRun || validation == NotRun then NotRun
      else if execution == Pass && validation == Pass && SoakShows(g, tree) then Pass
      else Fail
    case Traceability =>
      var combined := Combine(FreshAll(g, tree, TRACE));
      if combined != Pass then combined
      else if Shows(tree, TRACE_SUMMARY, g.traceSchema, v => TraceExact(g, v)) then Pass else Fail
    case KnownP0Zero => if RegistryClean(g) then Pass else Fail
  }

  lemma HoldExactly(g: Setting, tree: Tree, id: string, p: string, exact: Json -> bool)
    ensures HoldNeeds(g, tree, Fresh(g, tree, id), p, exact) == Pass <==> MayHold(g, tree, id, p, exact)
    ensures HoldNeeds(g, tree, Fresh(g, tree, id), p, exact) == NotRun <==> SidecarSays(g, tree, id, "NOT_RUN")
  {
    StatesExactly(g, tree, id);
    hide Fresh, SidecarSays, Shows, OfThisSource;
  }

  /** The judgement is PASS exactly when everything the criterion asks for is met. */
  lemma JudgeIsMet(g: Setting, tree: Tree, c: Criterion)
    ensures Judge(g, tree, c) == Pass <==> Met(g, tree, c)
  {
    hide Combine, FreshAll, Fresh, SaysPass, Shows, BlackboxExact, EnospcExact, FdExact, OciExact, DeepExact, SupplyExact, TraceExact;
    match c
    case PublicContracts =>
      GroupPasses(g, tree, ["public-contracts"]);
      assert ["public-contracts"][0] == "public-contracts";
    case FormatLintStatic => GroupPasses(g, tree, FORMAT_LINT);
    case UnitPropertyContract => GroupPasses(g, tree, UNIT);
    case ReleaseBinary => PassSays(g, tree, "release-build");
    case RealBinaryPublicBoundary => PassSays(g, tree, "tests");
    case OsFaultRecovery => PassSays(g, tree, "os-faults");
    case FormalSoak =>
      PassSays(g, tree, "formal-soak");
      PassSays(g, tree, "formal-soak-validation");
    case Traceability => GroupPasses(g, tree, TRACE);
    case RealOciStartup => HoldExactly(g, tree, "oci-smoke", OCI, v => OciExact(v));
    case DeepRuntimeChecks => HoldExactly(g, tree, "deep-checks", DEEP, v => DeepExact(v));
    case SupplySecurityChecks => HoldExactly(g, tree, "supply-chain", SUPPLY, v => SupplyExact(v));
    case _ =>
  }

  /** The sidecar of a command says none of the three things other than a failure. */
  predicate Broken(g: Setting, tree: Tree, id: string) {
    !SidecarSays(g, tree, id, "PASS") && !SidecarSays(g, tree, id, "HOLD") && !SidecarSays(g, tree, id, "NOT_RUN")
  }

  /** Some command of the group was not run, and none is broken. */
  predicate GroupIdle(g: Setting, tree: Tree, ids: seq<string>) {
    && (exists i :: 0 <= i < |ids| && SidecarSays(g, tree, ids[i], "NOT_RUN"))
    && forall i :: 0 <= i < |ids| ==> !Broken(g, tree, ids[i])
  }

  lemma GroupIdles(g: Setting, tree: Tree, ids: seq<string>)
    ensures Combine(FreshAll(g, tree, ids)) == NotRun <==> GroupIdle(g, tree, ids)
  {
    var states := FreshAll(g, tree, ids);
    CombinesExactly(states);
    hide FreshAll, Fresh, SidecarSays, Combine;
    if ids == [] {
      NoCommands(g, tree);
    } else {
      FreshAllAt(g, tree, ids, 0);
    }
    forall i | 0 <= i < |ids|
      ensures |states| == |ids| && (states[i] == NotRun <==> SidecarSays(g, tree, ids[i], "NOT_RUN"))
      ensures states[i] == Fail <==> Broken(g, tree, ids[i])
    {
      FreshAllAt(g, tree, ids, i);
      StatesExactly(g, tree, ids[i]);
    }
    assert NotRun in states <==> exists i :: 0 <= i < |ids| && SidecarSays(g, tree, ids[i], "NOT_RUN");
  }

  /** What makes a criterion NOT_RUN. */
  predicate Idle(g: Setting, tree: Tree, c: Criterion) {
    match c
    case PublicContracts => SidecarSays(g, tree, "public-contracts", "NOT_RUN")
    case FormatLintStatic => GroupIdle(g, tree, FORMAT_LINT)
    case UnitPropertyContract => GroupIdle(g, tree, UNIT)
    case ReleaseBinary => SidecarSays(g, tree, "release-build", "NOT_RUN")
    case RealBinaryPublicBoundary => SidecarSays(g, tree, "tests", "NOT_RUN")
    case OsFaultRecovery => SidecarSays(g, tree, "os-faults", "NOT_RUN")
    case RealOciStartup => SidecarSays(g, tree, "oci-smoke", "NOT_RUN")
    case DeepRuntimeChecks => SidecarSays(g, tree, "deep-checks", "NOT_RUN")
    case SupplySecurityChecks => SidecarSays(g, tree, "supply-chain", "NOT_RUN")
    case FormalSoak => SidecarSays(g, tree, "formal-soak", "NOT_RUN") || SidecarSays(g, tree, "formal-soak-validation", "NOT_RUN")
    case Traceability => GroupIdle(g, tree, TRACE)
    case KnownP0Zero => false
  }

  lemma OneIdle(g: Setting, tree: Tree, id: string)
    ensures GroupIdle(g, tree, [id]) <==> SidecarSays(g, tree, id, "NOT_RUN")
  {
    hide SidecarSays;
    assert [id][0] == id;
  }

  /** The judgement is NOT_RUN exactly when a command it rests on says so and nothing in its group is broken; it is never HOLD. */
  lemma JudgeIsIdle(g: Setting, tree: Tree, c: Criterion)
    ensures Judge(g, tree, c) == NotRun <==> Idle(g, tree, c)
    ensures Judge(g, tree, c) != Hold
  {
    hide Combine, FreshAll, Fresh, SidecarSays, GroupIdle, Shows;
    hide BlackboxExact, EnospcExact, FdExact, OciExact, DeepExact, SupplyExact, TraceExact;
    match c
    case PublicContracts =>
      GroupIdles(g, tree, ["public-contracts"]);
      OneIdle(g, tree, "public-contracts");
      CombinesExactly(FreshAll(g, tree, ["public-contracts"]));
    case FormatLintStatic =>
      GroupIdles(g, tree, FORMAT_LINT);
      CombinesExactly(FreshAll(g, tree, FORMAT_LINT));
    case UnitPropertyContract =>
      GroupIdles(g, tree, UNIT);
      CombinesExactly(FreshAll(g, tree, UNIT));
    case ReleaseBinary => StatesExactly(g, tree, "release-build");
    case RealBinaryPublicBoundary => StatesExactly(g, tree, "tests");
    case OsFaultRecovery => StatesExactly(g, tree, "os-faults");
    case RealOciStartup => HoldExactly(g, tree, "oci-smoke", OCI, v => OciExact(v));
    case DeepRuntimeChecks => HoldExactly(g, tree, "deep-checks", DEEP, v => DeepExact(v));
    case SupplySecurityChecks => HoldExactly(g, tree, "supply-chain", SUPPLY, v => SupplyExact(v));
    case FormalSoak =>
      StatesExactly(g, tree, "formal-soak");
      StatesExactly(g, tree, "formal-soak-validation");
    case Traceability =>
      GroupIdles(g, tree, TRACE);
      CombinesExactly(FreshAll(g, tree, TRACE));
    case KnownP0Zero =>
  }

  // ----- the report -----

  datatype Report = Report(complete: bool, criteria: map<Criterion, State>, blockers: seq<Criterion>)

  /** Criteria that do not pass, in the frozen order. */
  function Blockers(criteria: map<Criterion, State>, names: seq<Criterion>): seq<Criterion> {
    if names == [] then []
    else
      var n := names[|names| - 1];
      Blockers(criteria, names[..|names| - 1]) + if n in criteria && criteria[n] == Pass then [] else [n]
  }

  lemma {:induction false} BlockersExactly(criteria: map<Criterion, State>, names: seq<Criterion>)
    ensures forall c :: c in Blockers(criteria, names) <==> c in names && !(c in criteria && criteria[c] == Pass)
  {
    if names != [] {
      BlockersExactly(criteria, names[..|names| - 1]);
      assert names == names[..|names| - 1] + [names[|names| - 1]];
    }
  }

  lemma EveryCriterionListed(c: Criterion)
    ensures c in CRITERIA
  {
    assert CRITERIA[0] == PublicContracts && CRITERIA[1] == FormatLintStatic && CRITERIA[2] == UnitPropertyContract;
    assert CRITERIA[3] == ReleaseBinary && CRITERIA[4] == RealBinaryPublicBoundary && CRITERIA[5] == OsFaultRecovery;
    assert CRITERIA[6] == RealOciStartup && CRITERIA[7] == DeepRuntimeChecks && CRITERIA[8] == SupplySecurityChecks;
    assert CRITERIA[9] == FormalSoak && CRITERIA[10] == Traceability && CRITERIA[11] == KnownP0Zero;
  }

  /** The artifact is there when it is digested. */
  predicate Present(tree: Tree, a: Artifact) { ArtifactPath(a) in tree }

  predicate AllPresent(tree: Tree) { forall i :: 0 <= i < |ARTIFACTS| ==> Present(tree, ARTIFACTS[i]) }

  predicate AllMet(g: Setting, tree: Tree) { forall i :: 0 <= i < |CRITERIA| ==> Met(g, tree, CRITERIA[i]) }

  /** On one and the same tree nothing that passed can be missing. */
  lemma MetIsPresent(g: Setting, tree: Tree)
    requires AllMet(g, tree)
    ensures AllPresent(tree)
  {
    hide Met;
    forall i | 0 <= i < |ARTIFACTS|
      ensures Present(tree, ARTIFACTS[i])
    {
      EveryCriterionListed(Owner(ARTIFACTS[i]));
      var k :| 0 <= k < |CRITERIA| && CRITERIA[k] == Owner(ARTIFACTS[i]);
      assert Met(g, tree, CRITERIA[k]);
      PassedIsPresent(g, tree, ARTIFACTS[i]);
    }
  }

  /** Some artifact among the first `n` is missing and owned by `c`. */
  predicate Charged(tree: Tree, c: Criterion, n: nat)
    requires n <= |ARTIFACTS|
  {
    exists i :: 0 <= i < n && !Present(tree, ARTIFACTS[i]) && Owner(ARTIFACTS[i]) == c
  }

  lemma ChargedStep(tree: Tree, n: nat)
    requires n < |ARTIFACTS|
    ensures forall c :: Charged(tree, c, n + 1) <==>
      Charged(tree, c, n) || (!Present(tree, ARTIFACTS[n]) && Owner(ARTIFACTS[n]) == c)
  {
    hide Owner, Present;
    forall c
      ensures Charged(tree, c, n + 1) <==> Charged(tree, c, n) || (!Present(tree, ARTIFACTS[n]) && Owner(ARTIFACTS[n]) == c)
    {
      if Charged(tree, c, n + 1) {
        var i :| 0 <= i < n + 1 && !Present(tree, ARTIFACTS[i]) && Owner(ARTIFACTS[i]) == c;
        assert i < n ==> Charged(tree, c, n);
      }
      if Charged(tree, c, n) {
        var i :| 0 <= i < n && !Present(tree, ARTIFACTS[i]) && Owner(ARTIFACTS[i]) == c;
        assert Charged(tree, c, n + 1);
      }
    }
  }

  lemma NoBlockers(g: Setting, tree: Tree, criteria: map<Criterion, State>, blockers: seq<Criterion>)
    requires forall c :: c in criteria <==> c in CRITERIA
    requires forall c :: c in criteria ==> (criteria[c] == Pass <==> Met(g, tree, c))
    requires forall c :: c in blockers <==> c in CRITERIA && !(c in criteria && criteria[c] == Pass)
    ensures AllMet(g, tree) <==> blockers == []
  {
    hide Met;
    if blockers == [] {
      forall i | 0 <= i < |CRITERIA|
        ensures Met(g, tree, CRITERIA[i])
      {
        assert CRITERIA[i] !in blockers;
      }
    } else {
      assert blockers[0] in blockers;
    }
  }

  class CompletionDeriver {
    const setting: Setting
    const tree: Tree          // the run tree while the criteria are judged
    var cache: map<string, State>

    constructor (g: Setting, t: Tree)
      ensures setting == g && tree == t && cache == map[] && Valid()
    {
      setting, tree, cache := g, t, map[];
    }

    /** The cache only ever holds what a fresh reading would give. */
    ghost predicate Valid()
      reads this
    {
      forall id :: id in cache ==> cache[id] == Fresh(setting, tree, id)
    }

    method Command(id: string) returns (state: State)
      requires Valid()
      modifies this
      ensures Valid() && state == Fresh(setting, tree, id) && cache == old(cache)[id := state]
    {
      hide Consistent;
      if id in cache {
        state := cache[id];
        assert cache == cache[id := state];
        return;
      }
      var p := SidecarPath(id);
      state := Fail;
      if p in tree && setting.commandSchema.Some? && tree[p].document.Some? {
        var doc := tree[p].document.value;
        if setting.commandSchema.value(doc) && Consistent(setting, tree, id, doc) {
          state := StateOf(Field(doc, "result"));
        }
      }
      cache := cache[id := state];
    }

    method Group(ids: seq<string>) returns (state: State)
      requires Valid()
      modifies this
      ensures Valid() && state == Combine(FreshAll(setting, tree, ids))
    {
      hide Fresh;
      var states: seq<State> := [];
      for i := 0 to |ids|
        invariant Valid() && states == FreshAll(setting, tree, ids[..i])
      {
        var one := Command(ids[i]);
        assert ids[..i + 1][..i] == ids[..i];
        states := states + [one];
      }
      assert ids[..|ids|] == ids;
      state := Combine(states);
    }

    /** A command, and a document beside it. */
    method CommandAnd(id: string, exact: bool) returns (state: State)
      requires Valid()
      modifies this
      ensures Valid() && state == Needs(Fresh(setting, tree, id), exact)
    {
      hide Fresh;
      var command := Command(id);
      if command != Pass {
        return if command == NotRun then NotRun else Fail;
      }
      state := if exact then Pass else Fail;
    }

    method MayHoldEvidence(id: string, p: string, exact: Json -> bool) returns (state: State)
      requires Valid()
      modifies this
      ensures Valid() && state == HoldNeeds(setting, tree, Fresh(setting, tree, id), p, exact)
    {
      hide Fresh;
      var command := Command(id);
      if command == NotRun {
        return NotRun;
      }
      if command != Pass && command != Hold {
        return Fail;
      }
      var value := Evidence(tree, p, setting.edgeSchema);
      if value.None? {
        return Fail;
      }
      state := if Bound(setting, value.value, command) && exact(value.value) then Pass else Fail;
    }

    method Soaked() returns (state: State)
      requires Valid()
      modifies this
      ensures Valid() && state == Judge(setting, tree, FormalSoak)
    {
      hide Fresh, SoakExact;
      var execution := Command("formal-soak");
      var validation := Command("formal-soak-validation");
      if execution == NotRun || validation == NotRun {
        return NotRun;
      }
      if execution != Pass || validation != Pass || SOAK !in tree || !setting.soakValidator(tree[SOAK]) {
        return Fail;
      }
      if tree[SOAK].document.None? {
        return Fail;
      }
      state := if SoakExact(tree[SOAK].document.value) then Pass else Fail;
    }

    /** The findings registry: count the open P0 entries. */
    method Findings() returns (state: State, open: nat)
      ensures state == Judge(setting, tree, KnownP0Zero)
      ensures setting.findings.Some? ==> (open == 0 <==> NoOpenP0(setting.findings.value))
    {
      if setting.findings.None? {
        return Fail, 0;
      }
      var registry := setting.findings.value;
      var list := Registered(registry);
      open := 0;
      for i := 0 to |list|
        invariant open == 0 <==> forall j :: 0 <= j < i ==> !OpenP0(list[j])
      {
        if OpenP0(list[i]) {
          open := open + 1;
        }
      }
      state := if Conforms(setting.findingsSchema, registry) && open == 0 then Pass else Fail;
    }

    method Criterion(c: Criterion) returns (state: State)
      requires Valid()
      modifies this
      ensures Valid() && state == Judge(setting, tree, c) && (state == Pass <==> Met(setting, tree, c))
    {
      JudgeIsMet(setting, tree, c);
      hide Combine, FreshAll, Fresh, Shows, Met;
      match c {
        case PublicContracts => state := Group(["public-contracts"]);
        case FormatLintStatic => state := Group(FORMAT_LINT);
        case UnitPropertyContract => state := Group(UNIT);
        case ReleaseBinary => state := CommandAnd("release-build", setting.binaryPresent);
        case RealBinaryPublicBoundary =>
          state := CommandAnd("tests", Shows(tree, BLACKBOX, setting.blackboxSchema, v => BlackboxExact(v)));
        case OsFaultRecovery =>
          state := CommandAnd("os-faults", Shows(tree, ENOSPC, setting.blackboxSchema, v => EnospcExact(v))
                                           && Shows(tree, FD_EXHAUSTION, setting.blackboxSchema, v => FdExact(v)));
        case RealOciStartup => state := MayHoldEvidence("oci-smoke", OCI, v => OciExact(v));
        case DeepRuntimeChecks => state := MayHoldEvidence("deep-checks", DEEP, v => DeepExact(v));
        case SupplySecurityChecks => state := MayHoldEvidence("supply-chain", SUPPLY, v => SupplyExact(v));
        case FormalSoak => state := Soaked();
        case Traceability =>
          var combined := Group(TRACE);
          state := if combined != Pass then combined
                   else if Shows(tree, TRACE_SUMMARY, setting.traceSchema, v => TraceExact(setting, v)) then Pass else Fail;
        case KnownP0Zero =>
          var open;
          state, open := Findings();
      }
    }

    method Judged() returns (criteria: map<Criterion, State>)
      requires Valid()
      modifies this
      ensures Valid() && forall c :: c in criteria <==> c in CRITERIA
      ensures forall c :: c in criteria ==> criteria[c] == Judge(setting, tree, c) && (criteria[c] == Pass <==> Met(setting, tree, c))
    {
      hide Judge, Met;
      criteria := map[];
      for i := 0 to |CRITERIA|
        invariant Valid() && forall c :: c in criteria <==> c in CRITERIA[..i]
        invariant forall c :: c in criteria ==>
          criteria[c] == Judge(setting, tree, c) && (criteria[c] == Pass <==> Met(setting, tree, c))
      {
        var state := Criterion(CRITERIA[i]);
        criteria := criteria[CRITERIA[i] := state];
      }
      assert CRITERIA[..|CRITERIA|] == CRITERIA;
    }

    /** Charge every artifact missing from `later` to its owner; nothing else changes. */
    method Repair(criteria: map<Criterion, State>, later: Tree) returns (r: map<Criterion, State>)
      requires forall c: Criterion :: c in criteria
      ensures r.Keys == criteria.Keys
      ensures forall c :: c in criteria ==> r[c] == if Charged(later, c, |ARTIFACTS|) then Fail else criteria[c]
    {
      hide Present, Owner;
      r := criteria;
      for i := 0 to |ARTIFACTS|
        invariant r.Keys == criteria.Keys
        invariant forall c :: c in criteria ==> r[c] == if Charged(later, c, i) then Fail else criteria[c]
      {
        ChargedStep(later, i);
        hide Charged;
        if !Present(later, ARTIFACTS[i]) {
          r := r[Owner(ARTIFACTS[i]) := Fail];
        }
      }
    }

    /**
     COMPLETE if and only if the final blocker list is empty, which is exactly when
     every criterion is met and no artifact is gone by the time it is digested.  On a
     tree that does not change in between nothing can be gone, and COMPLETE means
     that every criterion is met.
     */
    method Derive(later: Tree) returns (r: Report)
      requires Valid()
      modifies this
      ensures Valid()
      ensures r.complete <==> r.blockers == []
      ensures r.complete <==> AllMet(setting, tree) && AllPresent(later)
      ensures later == tree ==> (r.complete <==> AllMet(setting, tree))
      ensures r.blockers == Blockers(r.criteria, CRITERIA)
      ensures forall c :: c in r.blockers <==>
        if AllMet(setting, tree) then Charged(later, c, |ARTIFACTS|) else c in CRITERIA && !Met(setting, tree, c)
    {
      hide Judge, Blockers, Met, Present, Owner;
      var criteria := Judged();
      var blockers := ListBlockers(criteria);
      BlockersExactly(criteria, CRITERIA);
      NoBlockers(setting, tree, criteria, blockers);
      if AllMet(setting, tree) {
        MetIsPresent(setting, tree);
      }
      var complete := blockers == [] && AllPresent(later);
      forall c: Criterion
        ensures c in CRITERIA
      {
        EveryCriterionListed(c);
      }
      if !complete && blockers == [] {
        criteria := Repair(criteria, later);
        blockers := ListBlockers(criteria);
        BlockersExactly(criteria, CRITERIA);
        ghost var i :| 0 <= i < |ARTIFACTS| && !Present(later, ARTIFACTS[i]);
        assert Charged(later, Owner(ARTIFACTS[i]), |ARTIFACTS|);
        assert Owner(ARTIFACTS[i]) in blockers;
      }
      return Report(complete, criteria, blockers);
    }

    method ListBlockers(criteria: map<Criterion, State>) returns (r: seq<Criterion>)
      ensures r == Blockers(criteria, CRITERIA)
    {
      r := [];
      for i := 0 to |CRITERIA|
        invariant r == Blockers(criteria, CRITERIA[..i])
      {
        assert CRITERIA[..i + 1][..i] == CRITERIA[..i];
        if CRITERIA[i] !in criteria || criteria[CRITERIA[i]] != Pass {
          r := r + [CRITERIA[i]];
        }
      }
      assert CRITERIA[..|CRITERIA|] == CRITERIA;
    }
  }
}
