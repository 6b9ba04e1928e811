/**
 The requirement-traceability validator: execution bindings, command evidence
 and per-requirement aggregation.  Failures are only ever appended; a summary with
 none that says QUALIFIED is shown to carry the whole chain from requirement to
 passing log line.
 */
module Traceability {
  import opened Prelude
  import opened Paths

  datatype Outcome = Passed | NotRun | Held | Failed

  datatype Mode = RustLibtest | CommandMode | OtherMode

  datatype Binding = Binding(command: string, log: string, mode: Mode, required: bool, targets: seq<string>)

  datatype Failure =
    | BadCommandId(command: string) | DuplicateCommand(command: string) | BadLog(command: string) | BadMode(command: string)
    | BadTargets(command: string) | SharedTarget(target: string)
    | Incomplete(command: string) | Oversized(command: string) | Unreadable(command: string) | Drifted(command: string) | RequiredFailed(command: string)
    | NoLogBinding(id: string) | NoDocument(id: string) | NoRun(target: string) | NoPassingLine(target: string)
    | TargetFailed(target: string)

  // ----- execution bindings -----

  predicate IsCommandId(s: string) {
    1 <= |s| <= 64 && 'a' <= s[0] <= 'z' &&
    forall i :: 0 <= i < |s| ==> 'a' <= s[i] <= 'z' || '0' <= s[i] <= '9' || s[i] == '-'
  }

  predicate SafeRelative(value: string) { value != "" && Canonical(value) }

  predicate Distinct(ts: seq<string>) { forall i, j :: 0 <= i < j < |ts| ==> ts[i] != ts[j] }

  predicate Shaped(b: Binding) {
    && IsCommandId(b.command) && b.log == b.command + ".log" && SafeRelative(b.log)
    && b.mode != OtherMode && Distinct(b.targets)
  }

  /** The dictionaries the loop builds; a later binding overwrites an earlier one. */
  function ByCommand(bs: seq<Binding>): map<string, Binding> {
    if bs == [] then map[] else ByCommand(bs[..|bs| - 1])[bs[|bs| - 1].command := bs[|bs| - 1]]
  }

  function TargetTo(bs: seq<Binding>): map<string, string> {
    if bs == [] then map[]
    else
      var b := bs[|bs| - 1];
      TargetTo(bs[..|bs| - 1]) + if Distinct(b.targets) then map t | t in b.targets :: b.command else map[]
  }

  predicate BindingsOk(bs: seq<Binding>) {
    bs == [] ||
    var init, b := bs[..|bs| - 1], bs[|bs| - 1];
    BindingsOk(init) && Shaped(b) && b.command !in ByCommand(init) && forall t :: t in b.targets ==> t !in TargetTo(init)
  }

  method AddTargets(targetTo: map<string, string>, targets: seq<string>, command: string)
    returns (r: map<string, string>, failures: seq<Failure>)
    requires Distinct(targets)
    ensures failures == [] <==> forall t :: t in targets ==> t !in targetTo
    ensures r == targetTo + map t | t in targets :: command
  {
    r, failures := targetTo, [];
    for i := 0 to |targets|
      invariant failures == [] <==> forall t :: t in targets[..i] ==> t !in targetTo
      invariant forall t :: t in r <==> t in targetTo || t in targets[..i]
      invariant forall t :: t in r ==> r[t] == if t in targets[..i] then command else targetTo[t]
    {
      var target := targets[i];
      assert target !in targets[..i];
      assert targets[..i + 1] == targets[..i] + [target];
      if target in r {
        failures := failures + [SharedTarget(target)];
      }
      r := r[target := command];
    }
    assert targets[..|targets|] == targets;
  }

  method CheckBindings(bs: seq<Binding>)
    returns (failures: seq<Failure>, byCommand: map<string, Binding>, targetTo: map<string, string>)
    ensures failures == [] <==> BindingsOk(bs)
    ensures byCommand == ByCommand(bs) && targetTo == TargetTo(bs)
  {
    hide IsCommandId, SafeRelative;
    failures, byCommand, targetTo := [], map[], map[];
    for i := 0 to |bs|
      invariant failures == [] <==> BindingsOk(bs[..i])
      invariant byCommand == ByCommand(bs[..i]) && targetTo == TargetTo(bs[..i])
    {
      var b := bs[i];
      assert bs[..i + 1][..i] == bs[..i] && bs[..i + 1][i] == b;
      ghost var before := failures;
      if !IsCommandId(b.command) {
        failures := failures + [BadCommandId(b.command)];
      }
      if b.command in byCommand {
        failures := failures + [DuplicateCommand(b.command)];
      }
      byCommand := byCommand[b.command := b];
      if b.log != b.command + ".log" || !SafeRelative(b.log) {
        failures := failures + [BadLog(b.command)];
      }
      if b.mode == OtherMode {
        failures := failures + [BadMode(b.command)];
      }
      if Distinct(b.targets) {
        var shared;
        targetTo, shared := AddTargets(targetTo, b.targets, b.command);
        failures := failures + shared;
      } else {
        failures := failures + [BadTargets(b.command)];
      }
    }
    assert bs[..|bs|] == bs;
  }

  /** In accepted bindings a command stands for one binding and a target for one command. */
  lemma {:induction false} OwnedOnce(bs: seq<Binding>, i: nat)
    requires BindingsOk(bs) && i < |bs|
    ensures Shaped(bs[i]) && bs[i].command in ByCommand(bs) && ByCommand(bs)[bs[i].command] == bs[i]
    ensures forall t :: t in bs[i].targets ==> t in TargetTo(bs) && TargetTo(bs)[t] == bs[i].command
    decreases |bs|
  {
    hide Shaped;
    if i < |bs| - 1 {
      OwnedOnce(bs[..|bs| - 1], i);
    }
    assert Distinct(bs[|bs| - 1].targets) by { ShapedTargets(bs[|bs| - 1]); }
  }

  lemma ShapedTargets(b: Binding)
    requires Shaped(b)
    ensures Distinct(b.targets)
  {
  }

  lemma {:induction false} OwnerFound(bs: seq<Binding>, t: string)
    requires BindingsOk(bs) && t in TargetTo(bs)
    ensures exists i :: 0 <= i < |bs| && t in bs[i].targets && bs[i].command == TargetTo(bs)[t]
  {
    hide Shaped;
    var n := |bs| - 1;
    if t in bs[n].targets {
      OwnedOnce(bs, n);
    } else {
      OwnerFound(bs[..n], t);
      var i :| 0 <= i < n && t in bs[..n][i].targets && bs[..n][i].command == TargetTo(bs[..n])[t];
      assert bs[i] == bs[..n][i];
    }
  }

  /** Exactly one binding lists a bound target. */
  lemma OwnerUnique(bs: seq<Binding>, t: string, i: nat, j: nat)
    requires BindingsOk(bs) && i < |bs| && j < |bs| && t in bs[i].targets && t in bs[j].targets
    ensures bs[i] == bs[j]
  {
    OwnedOnce(bs, i);
    OwnedOnce(bs, j);
  }

  // ----- the bindings without the dictionaries -----

  /** Every binding is in order by itself, and no two share a command or a target. */
  predicate InOrder(bs: seq<Binding>) {
    && (forall i :: 0 <= i < |bs| ==> WellFormed(bs[i]))
    && (forall i, j :: 0 <= i < j < |bs| ==> bs[i].command != bs[j].command && Disjoint(bs[i].targets, bs[j].targets))
  }

  predicate Lower(c: char) { 'a' <= c <= 'z' }

  predicate WellFormed(b: Binding) {
    && 1 <= |b.command| <= 64 && Lower(b.command[0])
    && (forall c :: c in b.command ==> Lower(c) || '0' <= c <= '9' || c == '-')
    && b.log == b.command + ".log" && (b.mode == RustLibtest || b.mode == CommandMode) && Distinct(b.targets)
  }

  predicate Disjoint(a: seq<string>, b: seq<string>) { forall t :: t in a ==> t !in b }

  /** A command identifier followed by ".log" is a safe relative path. */
  lemma LogIsSafe(command: string)
    requires IsCommandId(command)
    ensures SafeRelative(command + ".log")
  {
    var name := command + ".log";
    assert '/' !in name by {
      forall c | c in name
        ensures c != '/'
      {
        var k :| 0 <= k < |name| && name[k] == c;
        assert k < |command| ==> c == command[k];
      }
    }
    SplitOne(name);
    assert name[0] == command[0];
    KeptFacts([name]);
    hide Split;
    assert Kept([name]) == [name];
  }

  lemma ShapedExactly(b: Binding)
    ensures Shaped(b) <==> WellFormed(b)
  {
    hide SafeRelative;
    var id := b.command;
    assert forall i :: 0 <= i < |id| ==> id[i] in id;
    assert IsCommandId(id) <==>
      1 <= |id| <= 64 && Lower(id[0]) && forall c :: c in id ==> Lower(c) || '0' <= c <= '9' || c == '-';
    if IsCommandId(id) {
      LogIsSafe(id);
    }
  }

  lemma {:induction false} CommandFound(bs: seq<Binding>, c: string)
    ensures c in ByCommand(bs) <==> exists i :: 0 <= i < |bs| && bs[i].command == c
    ensures c in ByCommand(bs) ==> ByCommand(bs)[c].command == c
    ensures c in ByCommand(bs) ==> exists i :: 0 <= i < |bs| && bs[i] == ByCommand(bs)[c]
  {
    if bs != [] {
      var n := |bs| - 1;
      var init := bs[..n];
      CommandFound(init, c);
      assert forall i :: 0 <= i < n ==> init[i] == bs[i];
      assert c == bs[n].command ==> ByCommand(bs)[c] == bs[n];
    }
  }

  lemma {:induction false} TargetListed(bs: seq<Binding>, t: string)
    requires forall i :: 0 <= i < |bs| ==> Distinct(bs[i].targets)
    ensures t in TargetTo(bs) <==> exists i :: 0 <= i < |bs| && t in bs[i].targets
  {
    if bs != [] {
      var n := |bs| - 1;
      var init := bs[..n];
      assert forall i :: 0 <= i < n ==> init[i] == bs[i];
      TargetListed(init, t);
    }
  }

  lemma InOrderCons(bs: seq<Binding>)
    requires bs != []
    ensures var init, b := bs[..|bs| - 1], bs[|bs| - 1];
      InOrder(bs) <==>
      && InOrder(init) && WellFormed(b)
      && forall i :: 0 <= i < |init| ==> init[i].command != b.command && Disjoint(init[i].targets, b.targets)
  {
    hide WellFormed, Disjoint;
    var n := |bs| - 1;
    assert forall i :: 0 <= i < n ==> bs[..n][i] == bs[i];
  }

  /** What the dictionaries are for: the loop accepts the bindings exactly if they are in order. */
  lemma {:induction false} BindingsExactly(bs: seq<Binding>)
    ensures BindingsOk(bs) <==> InOrder(bs)
  {
    if bs != [] {
      var init, b := bs[..|bs| - 1], bs[|bs| - 1];
      BindingsExactly(init);
      ShapedExactly(b);
      InOrderCons(bs);
      CommandFound(init, b.command);
      if InOrder(init) {
        assert forall i :: 0 <= i < |init| ==> WellFormed(init[i]);
        DisjointFromAll(init, b.targets);
      }
      hide Shaped, WellFormed, InOrder, ByCommand, TargetTo;
    }
  }

  lemma DisjointFromAll(bs: seq<Binding>, targets: seq<string>)
    requires forall i :: 0 <= i < |bs| ==> Distinct(bs[i].targets)
    ensures (forall t :: t in targets ==> t !in TargetTo(bs)) <==> forall i :: 0 <= i < |bs| ==> Disjoint(bs[i].targets, targets)
  {
    forall t
      ensures t in TargetTo(bs) <==> exists i :: 0 <= i < |bs| && t in bs[i].targets
    {
      TargetListed(bs, t);
    }
    hide TargetTo, Distinct;
  }

  // ----- passing tests in a log -----

  const OK_LEAD: string := "test "
  const OK_TAIL: string := " ... ok"

  predicate NameChar(c: char) { 'A' <= c <= 'Z' || 'a' <= c <= 'z' || '0' <= c <= '9' || c == '_' || c == ':' }

  /** The test path on a line of the form "test <path> ... ok". */
  function PassingPath(line: string): Option<string> {
    if |line| > |OK_LEAD| + |OK_TAIL| && OK_LEAD <= line && line[|line| - |OK_TAIL|..] == OK_TAIL &&
       (forall i :: |OK_LEAD| <= i < |line| - |OK_TAIL| ==> NameChar(line[i]))
    then Some(line[|OK_LEAD|..|line| - |OK_TAIL|]) else None
  }

  /** What follows the last "::" that ends at or before position `i`, or everything. */
  function SegmentFrom(s: string, i: nat): string
    requires i <= |s|
  {
    if i < 2 then s else if s[i - 2] == ':' && s[i - 1] == ':' then s[i..] else SegmentFrom(s, i - 1)
  }

  function LastSegment(s: string): string { SegmentFrom(s, |s|) }

  predicate ModulePrefix(p: string) { p == "" || (|p| >= 2 && p[|p| - 2] == ':' && p[|p| - 1] == ':') }

  lemma {:induction false} SegmentSplits(s: string, i: nat) returns (p: string)
    requires i <= |s| && LastSplit(s, i)
    ensures s == p + SegmentFrom(s, i) && ModulePrefix(p) && LastSplit(s, |p|)
  {
    if i < 2 {
      p := "";
    } else if s[i - 2] == ':' && s[i - 1] == ':' {
      p := s[..i];
    } else {
      p := SegmentSplits(s, i - 1);
    }
  }

  /** Names of the tests a log shows as passed. */
  function PassedTests(lines: seq<string>): set<string> {
    if lines == [] then {}
    else
      var path := PassingPath(lines[|lines| - 1]);
      PassedTests(lines[..|lines| - 1]) + if path.Some? then {LastSegment(path.value)} else {}
  }

  method ExactPassingTests(lines: seq<string>) returns (tests: set<string>)
    ensures tests == PassedTests(lines)
  {
    tests := {};
    for i := 0 to |lines|
      invariant tests == PassedTests(lines[..i])
    {
      assert lines[..i + 1][..i] == lines[..i];
      var path := PassingPath(lines[i]);
      if path.Some? {
        tests := tests + {LastSegment(path.value)};
      }
    }
    assert lines[..|lines|] == lines;
  }

  /** Letters, digits, underscores and colons. */
  predicate Legible(s: string) {
    forall i :: 0 <= i < |s| ==> 'a' <= s[i] <= 'z' || 'A' <= s[i] <= 'Z' || '0' <= s[i] <= '9' || s[i] in {'_', ':'}
  }

  /** No "::" ends after position `i`. */
  predicate LastSplit(s: string, i: nat) {
    forall j {:trigger s[j]} :: i <= j < |s| && j > 0 ==> !(s[j - 1] == ':' && s[j] == ':')
  }

  /** `path` is a test path whose part after the last "::" is `target`. */
  ghost predicate PathTo(path: string, target: string) {
    path != "" && Legible(path) &&
    exists p :: ModulePrefix(p) && path == p + target && LastSplit(path, |p|)
  }

  /** The log holds a line "test <path> ... ok" for a path to the target. */
  ghost predicate HasPassingLine(lines: seq<string>, target: string) {
    exists path :: PathTo(path, target) && "test " + path + " ... ok" in lines
  }

  lemma PathOnLine(line: string)
    requires PassingPath(line).Some?
    ensures line == "test " + PassingPath(line).value + " ... ok" && Legible(PassingPath(line).value)
  {
  }

  lemma LinePath(path: string)
    requires path != "" && Legible(path)
    ensures PassingPath("test " + path + " ... ok") == Some(path)
  {
    var line := "test " + path + " ... ok";
    assert |OK_LEAD| == 5 && |OK_TAIL| == 7;
    assert line[|line| - 7..] == OK_TAIL && line[5..|line| - 7] == path && OK_LEAD <= line;
    forall i | |OK_LEAD| <= i < |line| - |OK_TAIL|
      ensures NameChar(line[i])
    {
      assert line[i] == path[i - 5];
    }
  }

  lemma {:induction false} SegmentFound(s: string, p: string, target: string, i: nat)
    requires s == p + target && ModulePrefix(p) && LastSplit(s, |p|) && |p| <= i <= |s|
    ensures SegmentFrom(s, i) == target
    decreases i
  {
    if i == |p| {
      assert s[i..] == target;
      if i >= 2 {
        assert s[i - 2] == p[i - 2] && s[i - 1] == p[i - 1];
      }
    } else if i >= 2 {
      assert !(s[i - 1] == ':' && s[i - 2] == ':');
      SegmentFound(s, p, target, i - 1);
    }
  }

  lemma {:induction false} PathPasses(lines: seq<string>, line: string)
    requires line in lines && PassingPath(line).Some?
    ensures LastSegment(PassingPath(line).value) in PassedTests(lines)
  {
    hide PassingPath, LastSegment;
    var init := lines[..|lines| - 1];
    if line != lines[|lines| - 1] {
      assert line in init;
      PathPasses(init, line);
    }
  }

  lemma {:induction false} LineOfPassed(lines: seq<string>, target: string)
    requires target in PassedTests(lines)
    ensures HasPassingLine(lines, target)
  {
    var init, line := lines[..|lines| - 1], lines[|lines| - 1];
    hide PathTo, PassingPath;
    if target in PassedTests(init) {
      LineOfPassed(init, target);
      var path :| PathTo(path, target) && "test " + path + " ... ok" in init;
      assert "test " + path + " ... ok" in lines;
    } else {
      PathOnLine(line);
      LastIsPath(line);
      assert line in lines;
    }
  }

  lemma LastIsPath(line: string)
    requires PassingPath(line).Some?
    ensures PathTo(PassingPath(line).value, LastSegment(PassingPath(line).value))
  {
    var path := PassingPath(line).value;
    PathOnLine(line);
    var p := SegmentSplits(path, |path|);
  }

  /** A test counts as passed if and only if the log holds its line, whatever the module path before its name. */
  lemma PassedHasLine(lines: seq<string>, target: string)
    ensures target in PassedTests(lines) <==> HasPassingLine(lines, target)
  {
    hide PassedTests, PassingPath;
    if target in PassedTests(lines) {
      LineOfPassed(lines, target);
    }
    if HasPassingLine(lines, target) {
      var path :| PathTo(path, target) && "test " + path + " ... ok" in lines;
      var p :| ModulePrefix(p) && path == p + target && LastSplit(path, |p|);
      LinePath(path);
      PathPasses(lines, "test " + path + " ... ok");
      SegmentFound(path, p, target, |path|);
    }
  }

  /** For the name of a function, any line with that name after nothing or after "::" will do. */
  lemma NamePasses(lines: seq<string>, p: string, target: string)
    requires target != "" && ':' !in target && (p == "" || exists q :: p == q + "::")
    requires forall c :: c in p + target ==> 'A' <= c <= 'Z' || 'a' <= c <= 'z' || '0' <= c <= '9' || c == '_' || c == ':'
    requires "test " + (p + target) + " ... ok" in lines
    ensures target in PassedTests(lines)
  {
    var path := p + target;
    PassedHasLine(lines, target);
    hide PassedTests;
    forall j | |p| <= j < |path|
      ensures path[j] != ':'
    {
      assert path[j] == target[j - |p|];
    }
    forall i | 0 <= i < |path|
      ensures path[i] in path
    {
    }
    assert ModulePrefix(p) && LastSplit(path, |p|);
    assert Legible(path);
    assert PathTo(path, target);
  }

  // ----- command evidence -----

  datatype Exit = NoExit | Code(n: int) | BadExit

  datatype Log = Log(lines: seq<string>, digest: string, bytes: int)

  datatype CommandDoc = CommandDoc(
    schemaOk: bool, command: string, runId: string, logPath: string, logDigest: string, logBytes: int,
    exit: Exit, result: Outcome, qualified: bool, reason: string, timesOk: bool, directoryOk: bool)

  const MAX_ARTIFACT_BYTES: nat := 67_108_864

  /** The evidence directory: its regular files as logs, and the command sidecars; `None` is oversized or no sidecar. */
  datatype Evidence = Evidence(runId: string, logs: map<string, Log>, sidecars: map<string, Option<CommandDoc>>)

  datatype Run = Run(doc: CommandDoc, log: Log, binding: Binding)

  const WRITE_FAILURE: string := "COMMAND_EVIDENCE_WRITE_FAILURE"

  /** Result, qualification and reason that an exit code stands for. */
  function ExpectedResult(exit: Exit): Option<(Outcome, bool, Option<string>)> {
    match exit
    case NoExit => Some((NotRun, false, None))
    case BadExit => None
    case Code(n) =>
      if n == 0 then Some((Passed, true, None))
      else if n == 2 then Some((Held, false, Some("COMMAND_EXITED_HOLD")))
      else Some((Failed, false, Some("COMMAND_EXITED_FAILURE")))
  }

  predicate ExitOk(doc: CommandDoc) {
    var e := ExpectedResult(doc.exit);
    && e.Some? && doc.result == e.value.0 && doc.qualified == e.value.1
    && (e.value.2.Some? && doc.reason != e.value.2.value ==> doc.result == Failed && doc.reason == WRITE_FAILURE)
  }

  /** What a sidecar must say, by exit code. */
  lemma ExitExactly(doc: CommandDoc)
    ensures ExitOk(doc) <==>
      match doc.exit
      case NoExit => doc.result == NotRun && !doc.qualified
      case BadExit => false
      case Code(n) =>
        if n == 0 then doc.result == Passed && doc.qualified
        else if n == 2 then doc.result == Held && !doc.qualified && doc.reason == "COMMAND_EXITED_HOLD"
        else doc.result == Failed && !doc.qualified && doc.reason in {"COMMAND_EXITED_FAILURE", "COMMAND_EVIDENCE_WRITE_FAILURE"}
  {
  }

  predicate DocOk(doc: CommandDoc, b: Binding, log: Log, runId: string) {
    && doc.schemaOk && doc.command == b.command && doc.runId == runId
    && doc.logPath == b.log && doc.logDigest == log.digest && doc.logBytes == log.bytes
    && ExitOk(doc) && doc.timesOk && doc.directoryOk && !(b.required && doc.result == Failed)
  }

  predicate Present(e: Evidence, b: Binding) { b.log in e.logs || b.command in e.sidecars }

  /** Optional commands may be absent altogether; what is there must be whole and consistent. */
  predicate RunOk(e: Evidence, b: Binding) {
    (!Present(e, b) && !b.required) ||
    (HasRun(e, b) &&
     DocOk(e.sidecars[b.command].value, b, e.logs[b.log], e.runId))
  }

  /** Log and readable sidecar are both there, and not oversized. */
  predicate HasRun(e: Evidence, b: Binding) {
    && b.log in e.logs && e.logs[b.log].bytes <= MAX_ARTIFACT_BYTES
    && b.command in e.sidecars && e.sidecars[b.command].Some?
  }

  function RunFor(e: Evidence, b: Binding): Run
    requires HasRun(e, b)
  {
    Run(e.sidecars[b.command].value, e.logs[b.log], b)
  }

  /** The runs the command loop collects. */
  function RunsOf(e: Evidence, byCommand: map<string, Binding>): map<string, Run> {
    map c | c in byCommand && HasRun(e, byCommand[c]) :: RunFor(e, byCommand[c])
  }

  method CheckCommand(e: Evidence, b: Binding) returns (failures: seq<Failure>, run: Option<Run>)
    ensures failures == [] <==> RunOk(e, b)
    ensures run == if HasRun(e, b) then Some(RunFor(e, b)) else None
  {
    failures, run := [], None;
    if !Present(e, b) && !b.required {
      return;
    }
    if b.log !in e.logs || b.command !in e.sidecars {
      return [Incomplete(b.command)], None;
    }
    if e.logs[b.log].bytes > MAX_ARTIFACT_BYTES {
      return [Oversized(b.command)], None;
    }
    if e.sidecars[b.command].None? {
      return [Unreadable(b.command)], None;
    }
    var doc, log := e.sidecars[b.command].value, e.logs[b.log];
    if !doc.schemaOk || doc.command != b.command || doc.runId != e.runId || doc.logPath != b.log
       || doc.logDigest != log.digest || doc.logBytes != log.bytes {
      failures := failures + [Drifted(b.command)];
    }
    if !ExitOk(doc) || !doc.timesOk || !doc.directoryOk {
      failures := failures + [Drifted(b.command)];
    }
    run := Some(Run(doc, log, b));
    if b.required && doc.result == Failed {
      failures := failures + [RequiredFailed(b.command)];
    }
  }

  predicate RunsOk(e: Evidence, byCommand: map<string, Binding>) { forall c :: c in byCommand ==> RunOk(e, byCommand[c]) }

  method CollectRuns(e: Evidence, byCommand: map<string, Binding>) returns (failures: seq<Failure>, runs: map<string, Run>)
    ensures failures == [] <==> RunsOk(e, byCommand)
    ensures runs == RunsOf(e, byCommand)
  {
    hide RunOk, HasRun, RunFor;
    failures, runs := [], map[];
    var todo := byCommand.Keys;
    while todo != {}
      invariant todo <= byCommand.Keys
      invariant failures == [] <==> forall c :: c in byCommand && c !in todo ==> RunOk(e, byCommand[c])
      invariant forall c :: c in runs <==> c in byCommand && c !in todo && HasRun(e, byCommand[c])
      invariant forall c :: c in runs ==> c in byCommand && HasRun(e, byCommand[c]) && runs[c] == RunFor(e, byCommand[c])
      decreases |todo|
    {
      var c :| c in todo;
      var found, run := CheckCommand(e, byCommand[c]);
      failures := failures + found;
      if run.Some? {
        runs := runs[c := run.value];
      }
      todo := todo - {c};
    }
  }

  // ----- requirements -----

  datatype Requirement = Requirement(id: string, targets: seq<string>, logs: seq<string>, documents: seq<string>)

  datatype Verdict = Verdict(result: Outcome, qualified: bool)

  function TargetVerdict(t: string, targetTo: map<string, string>, runs: map<string, Run>): Verdict {
    if t !in targetTo || targetTo[t] !in runs then Verdict(Failed, false)
    else
      var run := runs[targetTo[t]];
      if run.binding.mode == RustLibtest && run.doc.result == Passed then
        if t in PassedTests(run.log.lines) then Verdict(Passed, true) else Verdict(Failed, false)
      else Verdict(run.doc.result, run.doc.qualified)
  }

  /** The target has a run that did not fail, with its own line in the log if the log is that of passed Rust tests. */
  ghost predicate Stands(t: string, targetTo: map<string, string>, runs: map<string, Run>) {
    && t in targetTo && targetTo[t] in runs
    && var run := runs[targetTo[t]];
       && run.doc.result != Failed
       && (run.binding.mode == RustLibtest && run.doc.result == Passed ==> HasPassingLine(run.log.lines, t))
  }

  lemma StandsExactly(t: string, targetTo: map<string, string>, runs: map<string, Run>)
    ensures TargetVerdict(t, targetTo, runs).result != Failed <==> Stands(t, targetTo, runs)
  {
    hide PassedTests, HasPassingLine;
    if t in targetTo && targetTo[t] in runs {
      PassedHasLine(runs[targetTo[t]].log.lines, t);
    }
  }

  /** The target loop of one requirement. */
  method CheckTargets(r: Requirement, targetTo: map<string, string>, runs: map<string, Run>)
    returns (failures: seq<Failure>, verdicts: seq<Verdict>)
    ensures failures == [] <==> TargetsOk(r, targetTo, runs)
    ensures failures == [] <==> forall i :: 0 <= i < |r.targets| ==> Stands(r.targets[i], targetTo, runs)
    ensures |verdicts| == |r.targets| && forall i :: 0 <= i < |r.targets| ==> verdicts[i] == TargetVerdict(r.targets[i], targetTo, runs)
  {
    hide PassedTests, Stands;
    failures, verdicts := [], [];
    for i := 0 to |r.targets|
      invariant failures == [] <==> forall j :: 0 <= j < i ==> TargetVerdict(r.targets[j], targetTo, runs).result != Failed
      invariant |verdicts| == i && forall j :: 0 <= j < i ==> verdicts[j] == TargetVerdict(r.targets[j], targetTo, runs)
    {
      var t := r.targets[i];
      var verdict := Verdict(Failed, false);
      if t !in targetTo || targetTo[t] !in runs {
        failures := failures + [NoRun(t)];
      } else {
        var run := runs[targetTo[t]];
        if run.binding.mode == RustLibtest && run.doc.result == Passed {
          var passed := ExactPassingTests(run.log.lines);
          if t in passed {
            verdict := Verdict(Passed, true);
          } else {
            failures := failures + [NoPassingLine(t)];
          }
        } else {
          verdict := Verdict(run.doc.result, run.doc.qualified);
        }
        if verdict.result == Failed {
          failures := failures + [TargetFailed(t)];
        }
      }
      verdicts := verdicts + [verdict];
    }
    forall i | 0 <= i < |r.targets|
      ensures TargetVerdict(r.targets[i], targetTo, runs).result != Failed <==> Stands(r.targets[i], targetTo, runs)
    {
      StandsExactly(r.targets[i], targetTo, runs);
    }
  }

  /** A JSON evidence document that was loaded and checked against its catalogue entry. */
  datatype JsonDoc = JsonDoc(verdict: Verdict, requirementIds: set<string>, testRelated: bool)

  /** Commands whose binding has this log. */
  function LogOwners(log: string, runs: map<string, Run>): set<string> { set c | c in runs && runs[c].binding.log == log }

  predicate LogQualified(log: string, runs: map<string, Run>) {
    forall c :: c in LogOwners(log, runs) ==> runs[c].doc.qualified
  }

  predicate DocumentOk(r: Requirement, path: string, docs: map<string, JsonDoc>) {
    path in docs && r.id in docs[path].requirementIds && docs[path].testRelated
  }

  predicate DocQualified(path: string, docs: map<string, JsonDoc>) { path in docs && docs[path].verdict.qualified }

  predicate EvidenceOk(r: Requirement, runs: map<string, Run>, docs: map<string, JsonDoc>) {
    && (forall i :: 0 <= i < |r.logs| ==> |LogOwners(r.logs[i], runs)| == 1)
    && (forall i :: 0 <= i < |r.documents| ==> DocumentOk(r, r.documents[i], docs))
  }

  predicate EvidenceQualified(r: Requirement, runs: map<string, Run>, docs: map<string, JsonDoc>) {
    && (forall i :: 0 <= i < |r.logs| ==> LogQualified(r.logs[i], runs))
    && (forall i :: 0 <= i < |r.documents| ==> DocQualified(r.documents[i], docs))
  }

  method CheckEvidence(r: Requirement, runs: map<string, Run>, docs: map<string, JsonDoc>)
    returns (failures: seq<Failure>, qualified: bool)
    ensures failures == [] <==> EvidenceOk(r, runs, docs)
    ensures failures == [] ==> (qualified <==> EvidenceQualified(r, runs, docs))
  {
    failures, qualified := [], true;
    for i := 0 to |r.logs|
      invariant failures == [] <==> forall j :: 0 <= j < i ==> |LogOwners(r.logs[j], runs)| == 1
      invariant failures == [] ==> (qualified <==> forall j :: 0 <= j < i ==> LogQualified(r.logs[j], runs))
    {
      var owners := LogOwners(r.logs[i], runs);
      if |owners| != 1 {
        failures := failures + [NoLogBinding(r.id)];
        continue;
      }
      var c :| c in owners;
      OnlyOne(owners, c);
      qualified := qualified && runs[c].doc.qualified;
    }
    ghost var logsOk := failures == [];
    ghost var logsQualified := qualified;
    for i := 0 to |r.documents|
      invariant failures == [] <==> (logsOk && forall j :: 0 <= j < i ==> DocumentOk(r, r.documents[j], docs))
      invariant failures == [] ==> (qualified <==> (logsQualified && forall j :: 0 <= j < i ==> DocQualified(r.documents[j], docs)))
    {
      var path := r.documents[i];
      if path !in docs {
        failures := failures + [NoDocument(r.id)];
        continue;
      }
      if r.id !in docs[path].requirementIds || !docs[path].testRelated {
        failures := failures + [NoDocument(r.id)];
      }
      qualified := qualified && docs[path].verdict.qualified;
    }
  }

  lemma OnlyOne(s: set<string>, c: string)
    requires |s| == 1 && c in s
    ensures s == {c}
  {
    assert |s - {c}| == 0;
  }

  predicate TargetsOk(r: Requirement, targetTo: map<string, string>, runs: map<string, Run>) {
    forall i :: 0 <= i < |r.targets| ==> TargetVerdict(r.targets[i], targetTo, runs).result != Failed
  }

  predicate TargetsQualified(r: Requirement, targetTo: map<string, string>, runs: map<string, Run>) {
    forall i :: 0 <= i < |r.targets| ==> TargetVerdict(r.targets[i], targetTo, runs).qualified
  }

  predicate Accepted(r: Requirement, targetTo: map<string, string>, runs: map<string, Run>, docs: map<string, JsonDoc>) {
    EvidenceOk(r, runs, docs) && TargetsOk(r, targetTo, runs)
  }

  predicate Proven(r: Requirement, targetTo: map<string, string>, runs: map<string, Run>, docs: map<string, JsonDoc>) {
    r.targets + r.logs + r.documents != [] && EvidenceQualified(r, runs, docs) && TargetsQualified(r, targetTo, runs)
  }

  method CheckRequirement(r: Requirement, targetTo: map<string, string>, runs: map<string, Run>, docs: map<string, JsonDoc>)
    returns (failures: seq<Failure>, qualified: bool)
    ensures failures == [] <==> Accepted(r, targetTo, runs, docs)
    ensures failures == [] ==> (qualified <==> Proven(r, targetTo, runs, docs))
  {
    hide EvidenceOk, EvidenceQualified, TargetVerdict, Stands;
    var evidence, evidenceQualified := CheckEvidence(r, runs, docs);
    var found, verdicts := CheckTargets(r, targetTo, runs);
    failures := evidence + found;
    qualified := evidenceQualified && r.targets + r.logs + r.documents != []
      && forall i :: 0 <= i < |verdicts| ==> verdicts[i].qualified;
  }

  // ----- the verdict -----

  /** Everything this pass checks, with the dictionaries it builds. */
  predicate Qualified(bs: seq<Binding>, rs: seq<Requirement>, e: Evidence, docs: map<string, JsonDoc>) {
    var runs := RunsOf(e, ByCommand(bs));
    && BindingsOk(bs)
    && RunsOk(e, ByCommand(bs))
    && (forall i :: 0 <= i < |rs| ==> Accepted(rs[i], TargetTo(bs), runs, docs) && Proven(rs[i], TargetTo(bs), runs, docs))
  }

  /** The log of `b` shows that `t` passed: exit code 0, the log bound by digest and size, and its own line if it is a Rust test. */
  ghost predicate Proves(e: Evidence, b: Binding, t: string) {
    && HasRun(e, b)
    && var doc, log := e.sidecars[b.command].value, e.logs[b.log];
       && doc.exit == Code(0) && doc.result == Passed && doc.command == b.command && doc.runId == e.runId
       && doc.logPath == b.log && doc.logDigest == log.digest && doc.logBytes == log.bytes
       && (b.mode == RustLibtest ==> HasPassingLine(log.lines, t))
  }

  /** Binding `n`, and no other, lists the target, and its log proves it. */
  ghost predicate ProvedBy(bs: seq<Binding>, e: Evidence, t: string, n: nat) {
    n < |bs| && t in bs[n].targets && Proves(e, bs[n], t) && forall j :: 0 <= j < |bs| && t in bs[j].targets ==> bs[j] == bs[n]
  }

  ghost predicate IsProved(bs: seq<Binding>, e: Evidence, t: string) { exists n: nat :: ProvedBy(bs, e, t, n) }

  /**
   QUALIFIED is end to end: every target of every requirement is listed by exactly one
   binding, and that binding's command exited 0 with a digest-bound log that shows it.
   */
  lemma QualifiedEndToEnd(bs: seq<Binding>, rs: seq<Requirement>, e: Evidence, docs: map<string, JsonDoc>)
    requires Qualified(bs, rs, e, docs)
    ensures forall i, k :: 0 <= i < |rs| && 0 <= k < |rs[i].targets| ==> IsProved(bs, e, rs[i].targets[k])
  {
    QualifiedExactly(bs, rs, e, docs);
    hide Qualified, IsProved;
    forall i | 0 <= i < |rs|
      ensures forall k :: 0 <= k < |rs[i].targets| ==> IsProved(bs, e, rs[i].targets[k])
    {
      assert Supported(bs, e, docs, rs[i]);
    }
  }

  // ----- QUALIFIED without the dictionaries -----

  /** The command of `b` ran, and exited 0. */
  predicate Succeeded(e: Evidence, b: Binding) {
    HasRun(e, b) && e.sidecars[b.command].value.exit == Code(0)
  }

  ghost predicate LogShown(bs: seq<Binding>, e: Evidence, log: string) {
    exists n :: 0 <= n < |bs| && bs[n].log == log && Succeeded(e, bs[n])
  }

  predicate Documented(r: Requirement, path: string, docs: map<string, JsonDoc>) {
    path in docs && r.id in docs[path].requirementIds && docs[path].testRelated && docs[path].verdict.qualified
  }

  /** A requirement has evidence, and all of it speaks for it. */
  ghost predicate Supported(bs: seq<Binding>, e: Evidence, docs: map<string, JsonDoc>, r: Requirement) {
    && r.targets + r.logs + r.documents != []
    && (forall k :: 0 <= k < |r.targets| ==> IsProved(bs, e, r.targets[k]))
    && (forall k :: 0 <= k < |r.logs| ==> LogShown(bs, e, r.logs[k]))
    && (forall k :: 0 <= k < |r.documents| ==> Documented(r, r.documents[k], docs))
  }

  ghost predicate Substantiated(bs: seq<Binding>, rs: seq<Requirement>, e: Evidence, docs: map<string, JsonDoc>) {
    && InOrder(bs) && (forall i :: 0 <= i < |bs| ==> RunOk(e, bs[i]))
    && (forall i :: 0 <= i < |rs| ==> Supported(bs, e, docs, rs[i]))
  }

  /** The bindings are in order and every command's evidence is whole and consistent, or absent where it may be. */
  predicate Sound(bs: seq<Binding>, e: Evidence) { BindingsOk(bs) && forall i :: 0 <= i < |bs| ==> RunOk(e, bs[i]) }

  lemma SoundExactly(bs: seq<Binding>, e: Evidence)
    requires BindingsOk(bs)
    ensures Sound(bs, e) <==> RunsOk(e, ByCommand(bs))
  {
    hide RunOk, Shaped;
    var byCommand := ByCommand(bs);
    if Sound(bs, e) {
      forall c | c in byCommand
        ensures RunOk(e, byCommand[c])
      {
        CommandFound(bs, c);
      }
    }
    if RunsOk(e, byCommand) {
      forall i | 0 <= i < |bs|
        ensures RunOk(e, bs[i])
      {
        OwnedOnce(bs, i);
      }
    }
  }

  predicate Speaks(v: Verdict) { v.result != Failed && v.qualified }

  lemma VerdictProves(e: Evidence, t: string, targetTo: map<string, string>, runs: map<string, Run>, b: Binding)
    requires t in targetTo && targetTo[t] == b.command && RunOk(e, b)
    requires b.command in runs <==> HasRun(e, b)
    requires HasRun(e, b) ==> runs[b.command] == RunFor(e, b)
    ensures Speaks(TargetVerdict(t, targetTo, runs)) <==> Proves(e, b, t)
  {
    hide PassedTests, HasPassingLine;
    if HasRun(e, b) {
      PassedHasLine(e.logs[b.log].lines, t);
      ExitExactly(e.sidecars[b.command].value);
    }
  }

  /** A target is accepted and qualified exactly if the one binding that lists it proves it. */
  lemma TargetExactly(bs: seq<Binding>, e: Evidence, t: string)
    requires Sound(bs, e)
    ensures Speaks(TargetVerdict(t, TargetTo(bs), RunsOf(e, ByCommand(bs)))) <==> IsProved(bs, e, t)
  {
    var runs := RunsOf(e, ByCommand(bs));
    hide Proves, RunOk, HasRun, Shaped, BindingsOk;
    if t in TargetTo(bs) {
      OwnerFound(bs, t);
      var n :| 0 <= n < |bs| && t in bs[n].targets && bs[n].command == TargetTo(bs)[t];
      OwnedOnce(bs, n);
      VerdictProves(e, t, TargetTo(bs), runs, bs[n]);
      forall j | 0 <= j < |bs| && t in bs[j].targets
        ensures bs[j] == bs[n]
      {
        OwnerUnique(bs, t, j, n);
      }
      hide TargetVerdict;
      assert Proves(e, bs[n], t) ==> ProvedBy(bs, e, t, n);
    } else if IsProved(bs, e, t) {
      var n: nat :| ProvedBy(bs, e, t, n);
      OwnedOnce(bs, n);
    }
  }

  lemma OneOwner(bs: seq<Binding>, e: Evidence, n: nat)
    requires Sound(bs, e) && n < |bs| && HasRun(e, bs[n])
    ensures LogOwners(bs[n].log, RunsOf(e, ByCommand(bs))) == {bs[n].command}
  {
    var runs, command := RunsOf(e, ByCommand(bs)), bs[n].command;
    OwnedOnce(bs, n);
    assert bs[n].log == command + ".log";
    hide HasRun, RunOk, ByCommand, BindingsOk, Shaped;
    forall c | c in LogOwners(bs[n].log, runs)
      ensures c == command
    {
      CommandFound(bs, c);
      var i :| 0 <= i < |bs| && bs[i] == ByCommand(bs)[c];
      OwnedLog(bs, i);
      assert c == (c + ".log")[..|c|] && command == (command + ".log")[..|command|];
    }
  }

  lemma OwnedLog(bs: seq<Binding>, i: nat)
    requires BindingsOk(bs) && i < |bs|
    ensures bs[i].log == bs[i].command + ".log"
  {
    OwnedOnce(bs, i);
  }

  /** A log has one owner that qualifies it exactly if a command with that log exited 0. */
  lemma LogExactly(bs: seq<Binding>, e: Evidence, log: string)
    requires Sound(bs, e)
    ensures var runs := RunsOf(e, ByCommand(bs));
      |LogOwners(log, runs)| == 1 && LogQualified(log, runs) <==> LogShown(bs, e, log)
  {
    var runs := RunsOf(e, ByCommand(bs));
    hide BindingsOk, Shaped, ByCommand;
    if LogShown(bs, e, log) {
      var n :| 0 <= n < |bs| && bs[n].log == log && Succeeded(e, bs[n]);
      OneOwner(bs, e, n);
      OwnedOnce(bs, n);
      ExitExactly(e.sidecars[bs[n].command].value);
    }
    if |LogOwners(log, runs)| == 1 && LogQualified(log, runs) {
      var c :| c in LogOwners(log, runs);
      CommandFound(bs, c);
      var i :| 0 <= i < |bs| && bs[i] == ByCommand(bs)[c];
      ExitExactly(e.sidecars[c].value);
      assert Succeeded(e, bs[i]);
    }
  }

  lemma TargetsExactly(bs: seq<Binding>, e: Evidence, r: Requirement)
    requires Sound(bs, e)
    ensures var runs := RunsOf(e, ByCommand(bs));
      TargetsOk(r, TargetTo(bs), runs) && TargetsQualified(r, TargetTo(bs), runs) <==>
      forall k :: 0 <= k < |r.targets| ==> IsProved(bs, e, r.targets[k])
  {
    forall k | 0 <= k < |r.targets|
      ensures Speaks(TargetVerdict(r.targets[k], TargetTo(bs), RunsOf(e, ByCommand(bs)))) <==> IsProved(bs, e, r.targets[k])
    {
      TargetExactly(bs, e, r.targets[k]);
    }
    hide TargetVerdict, IsProved, RunsOf, ByCommand, TargetTo, Sound;
  }

  lemma LogsExactly(bs: seq<Binding>, e: Evidence, r: Requirement)
    requires Sound(bs, e)
    ensures var runs := RunsOf(e, ByCommand(bs));
      (forall k :: 0 <= k < |r.logs| ==> |LogOwners(r.logs[k], runs)| == 1 && LogQualified(r.logs[k], runs)) <==>
      forall k :: 0 <= k < |r.logs| ==> LogShown(bs, e, r.logs[k])
  {
    forall k | 0 <= k < |r.logs|
      ensures var runs := RunsOf(e, ByCommand(bs));
        |LogOwners(r.logs[k], runs)| == 1 && LogQualified(r.logs[k], runs) <==> LogShown(bs, e, r.logs[k])
    {
      LogExactly(bs, e, r.logs[k]);
    }
    hide LogShown, LogOwners, LogQualified, RunsOf, ByCommand, Sound;
  }

  /** The checks on a requirement, regrouped by what they look at. */
  lemma Regrouped(r: Requirement, targetTo: map<string, string>, runs: map<string, Run>, docs: map<string, JsonDoc>)
    ensures Accepted(r, targetTo, runs, docs) && Proven(r, targetTo, runs, docs) <==>
      && r.targets + r.logs + r.documents != [] && TargetsOk(r, targetTo, runs) && TargetsQualified(r, targetTo, runs)
      && (forall k :: 0 <= k < |r.logs| ==> |LogOwners(r.logs[k], runs)| == 1 && LogQualified(r.logs[k], runs))
      && (forall k :: 0 <= k < |r.documents| ==> Documented(r, r.documents[k], docs))
  {
    hide TargetsOk, TargetsQualified, LogOwners, LogQualified;
    assert (forall k :: 0 <= k < |r.documents| ==> Documented(r, r.documents[k], docs)) <==>
      (forall k :: 0 <= k < |r.documents| ==> DocumentOk(r, r.documents[k], docs)) &&
      (forall k :: 0 <= k < |r.documents| ==> DocQualified(r.documents[k], docs));
  }

  lemma RequirementExactly(bs: seq<Binding>, e: Evidence, docs: map<string, JsonDoc>, r: Requirement)
    requires Sound(bs, e)
    ensures var runs := RunsOf(e, ByCommand(bs));
      Accepted(r, TargetTo(bs), runs, docs) && Proven(r, TargetTo(bs), runs, docs) <==> Supported(bs, e, docs, r)
  {
    TargetsExactly(bs, e, r);
    LogsExactly(bs, e, r);
    Regrouped(r, TargetTo(bs), RunsOf(e, ByCommand(bs)), docs);
    hide Accepted, Proven, TargetsOk, TargetsQualified, IsProved, LogShown, LogOwners, LogQualified;
    hide RunsOf, ByCommand, TargetTo, Sound, Documented;
  }

  /**
   QUALIFIED exactly: the bindings are in order, what they name is whole and consistent,
   and every requirement has evidence, all of which traces to commands that exited 0.
   */
  lemma QualifiedExactly(bs: seq<Binding>, rs: seq<Requirement>, e: Evidence, docs: map<string, JsonDoc>)
    ensures Qualified(bs, rs, e, docs) <==> Substantiated(bs, rs, e, docs)
  {
    BindingsExactly(bs);
    if BindingsOk(bs) {
      SoundExactly(bs, e);
      hide BindingsOk, InOrder, RunOk, RunsOk, Accepted, Proven, Supported, RunsOf, ByCommand, TargetTo;
      if Sound(bs, e) {
        AllExactly(bs, rs, e, docs);
      }
    }
  }

  lemma AllExactly(bs: seq<Binding>, rs: seq<Requirement>, e: Evidence, docs: map<string, JsonDoc>)
    requires Sound(bs, e)
    ensures var targetTo, runs := TargetTo(bs), RunsOf(e, ByCommand(bs));
      (forall i :: 0 <= i < |rs| ==> Accepted(rs[i], targetTo, runs, docs) && Proven(rs[i], targetTo, runs, docs)) <==>
      forall i :: 0 <= i < |rs| ==> Supported(bs, e, docs, rs[i])
  {
    hide Sound, Accepted, Proven, Supported, RunsOf, ByCommand, TargetTo;
    forall i | 0 <= i < |rs|
      ensures var targetTo, runs := TargetTo(bs), RunsOf(e, ByCommand(bs));
        Accepted(rs[i], targetTo, runs, docs) && Proven(rs[i], targetTo, runs, docs) <==> Supported(bs, e, docs, rs[i])
    {
      RequirementExactly(bs, e, docs, rs[i]);
    }
  }

  /** The whole pass over bindings, command evidence and requirements. */
  method Validate(bs: seq<Binding>, rs: seq<Requirement>, e: Evidence, docs: map<string, JsonDoc>)
    returns (failures: seq<Failure>, qualified: bool)
    ensures failures == [] && qualified <==> Qualified(bs, rs, e, docs)
    ensures failures == [] && qualified <==> Substantiated(bs, rs, e, docs)
  {
    QualifiedExactly(bs, rs, e, docs);
    hide Substantiated, BindingsOk, RunOk, RunsOk, RunsOf, Accepted, Proven;
    var bindingFailures, byCommand, targetTo := CheckBindings(bs);
    var runFailures, collected := CollectRuns(e, byCommand);
    failures, qualified := bindingFailures + runFailures, true;
    for i := 0 to |rs|
      invariant failures == [] <==> (bindingFailures + runFailures == []
                                     && forall j :: 0 <= j < i ==> Accepted(rs[j], targetTo, collected, docs))
      invariant failures == [] ==> (qualified <==> forall j :: 0 <= j < i ==> Proven(rs[j], targetTo, collected, docs))
    {
      var found, one := CheckRequirement(rs[i], targetTo, collected, docs);
      failures, qualified := failures + found, qualified && one;
    }
  }
}
