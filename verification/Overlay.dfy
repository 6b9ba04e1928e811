/**
 The layer scan of the OCI archive inspector.  The inspector follows one file
 through all layers with a digest and the state of three ancestor directories;
 the reference is a whole filesystem to which every member is applied in order.
 The file at the binary path of that filesystem is what the inspector must report.
 */
module Overlay {
  import opened Prelude
  import opened Paths

  type Path = seq<string>

  datatype Kind = File(size: int, hash: string) | Directory | SymLink(target: string) | HardLink(target: string) | Special

  datatype Member = Member(raw: string, kind: Kind)

  const USR: string := "usr"
  const USR_LOCAL: string := USR + "/" + "local"
  const USR_LOCAL_BIN: string := USR_LOCAL + "/" + "bin"
  const BINARY: string := USR_LOCAL_BIN + "/" + "masi-edge"
  const ANCESTORS: seq<string> := [USR, USR_LOCAL, USR_LOCAL_BIN]
  const BIN: Path := ["usr", "local", "bin", "masi-edge"]

  const OPAQUE: string := ".wh..wh..opq"
  const WHITEOUT: string := ".wh."

  const MAX_MEMBER_BYTES: int := 67_108_864
  const MAX_LAYER_MEMBERS: int := 65_536
  const MAX_LAYER_EXPANDED_BYTES: int := 536_870_912
  const MAX_BINARY_BYTES: int := 67_108_864

  // ----- the reference filesystem -----

  datatype Node = DirNode | FileNode(digest: string, size: int) | LinkNode

  /** What a member means, component by component. */
  datatype Change = Opaque(dir: Path) | Whiteout(dir: Path, name: string) | Entry(path: Path, node: Node)

  function DigestOf(hash: string): string { "sha256:" + hash }

  function NodeOf(kind: Kind): Node {
    match kind
    case File(size, hash) => FileNode(DigestOf(hash), size)
    case Directory => DirNode
    case _ => LinkNode
  }

  function ChangeOf(name: string, kind: Kind): Change {
    var cs := Components(name);
    if cs == [] then Entry([], DirNode)
    else
      var dir, last := cs[..|cs| - 1], cs[|cs| - 1];
      if last == OPAQUE then Opaque(dir)
      else if WHITEOUT <= last then Whiteout(dir, last[|WHITEOUT|..])
      else Entry(cs, NodeOf(kind))
  }

  type Fs = map<Path, Node>

  function MkDirs(fs: Fs, dir: Path): Fs {
    if dir == [] then fs else MkDirs(fs, dir[..|dir| - 1])[dir := DirNode]
  }

  function Without(fs: Fs, top: Path): Fs { map q | q in fs && !(top <= q) :: fs[q] }

  function Emptied(fs: Fs, dir: Path): Fs { map q | q in fs && !(dir < q) :: fs[q] }

  /** Parents spring up as directories; a whiteout removes a tree, an opaque marker all that is beneath it. */
  function ApplyChange(fs: Fs, c: Change): Fs {
    match c
    case Opaque(dir) => Emptied(MkDirs(fs, dir), dir)
    case Whiteout(dir, name) => Without(MkDirs(fs, dir), dir + [name])
    case Entry(path, node) =>
      if path == [] then fs
      else
        var made := MkDirs(fs, path[..|path| - 1]);
        (if node.DirNode? then made else Emptied(made, path))[path := node]
  }

  function ApplyAll(fs: Fs, cs: seq<Change>): Fs
    decreases |cs|
  {
    if cs == [] then fs else ApplyAll(ApplyChange(fs, cs[0]), cs[1..])
  }

  function Look(fs: Fs, q: Path): Option<Node> { if q in fs then Some(fs[q]) else None }

  /** The digest of the regular file at the binary path, if there is one. */
  function FsDigest(fs: Fs): string {
    if BIN in fs && fs[BIN].FileNode? then fs[BIN].digest else ""
  }

  /** Every entry lies in a directory: the reference is a tree. */
  predicate IsTree(fs: Fs) {
    forall q :: q in fs ==> q != [] && (|q| > 1 ==> Look(fs, q[..|q| - 1]) == Some(DirNode))
  }

  // ----- a change seen at one path -----

  datatype Effect = Keep | Become(node: Option<Node>)

  function At(c: Change, q: Path): Effect {
    match c
    case Opaque(dir) => if q <= dir then Become(Some(DirNode)) else if dir < q then Become(None) else Keep
    case Whiteout(dir, name) =>
      if q <= dir then Become(Some(DirNode)) else if dir + [name] <= q then Become(None) else Keep
    case Entry(path, node) =>
      if path == [] then Keep
      else if q < path then Become(Some(DirNode))
      else if q == path then Become(Some(node))
      else if path < q && !node.DirNode? then Become(None)
      else Keep
  }

  function Resulting(e: Effect, was: Option<Node>): Option<Node> {
    if e.Keep? then was else e.node
  }

  lemma {:induction false} MkDirsAt(fs: Fs, dir: Path, q: Path)
    requires q != []
    ensures Look(MkDirs(fs, dir), q) == if q <= dir then Some(DirNode) else Look(fs, q)
  {
    if dir != [] {
      MkDirsAt(fs, dir[..|dir| - 1], q);
      assert q <= dir <==> q == dir || q <= dir[..|dir| - 1];
    }
  }

  /** Whatever else a filesystem holds, a change does to each path exactly what `At` says. */
  lemma ApplyAt(fs: Fs, c: Change, q: Path)
    requires q != []
    ensures Look(ApplyChange(fs, c), q) == Resulting(At(c, q), Look(fs, q))
  {
    match c
    case Opaque(dir) => MkDirsAt(fs, dir, q);
    case Whiteout(dir, name) =>
      MkDirsAt(fs, dir, q);
      assert dir + [name] <= q ==> !(q <= dir);
    case Entry(path, node) =>
      if path != [] {
        var up := path[..|path| - 1];
        MkDirsAt(fs, up, q);
        assert q < path <==> q <= up;
      }
  }

  lemma {:induction false} RootFree(fs: Fs, dir: Path)
    requires [] !in fs
    ensures [] !in MkDirs(fs, dir)
  {
    if dir != [] {
      RootFree(fs, dir[..|dir| - 1]);
    }
  }

  lemma ParentAt(c: Change, q: Path)
    requires |q| > 1
    ensures var up := q[..|q| - 1];
      && (At(c, q).Become? && At(c, q).node.Some? ==> At(c, up) == Become(Some(DirNode)))
      && (At(c, q).Keep? ==> At(c, up).Keep? || At(c, up) == Become(Some(DirNode)))
  {
    var up := q[..|q| - 1];
    assert up < q;
    match c
    case Opaque(dir) => assert q <= dir ==> up <= dir; assert dir < up ==> dir < q;
    case Whiteout(dir, name) => assert q <= dir ==> up <= dir; assert dir + [name] <= up ==> dir + [name] <= q;
    case Entry(path, node) => assert q <= path ==> up < path; assert path <= up ==> path < q;
  }

  lemma TreeKept(fs: Fs, c: Change)
    requires IsTree(fs)
    ensures IsTree(ApplyChange(fs, c))
  {
    var next := ApplyChange(fs, c);
    forall q | q in next
      ensures q != [] && (|q| > 1 ==> Look(next, q[..|q| - 1]) == Some(DirNode))
    {
      RootFree(fs, match c case Opaque(d) => d case Whiteout(d, _) => d case Entry(p, _) => if p == [] then [] else p[..|p| - 1]);
      ApplyAt(fs, c, q);
      if |q| > 1 {
        var up := q[..|q| - 1];
        ParentAt(c, q);
        ApplyAt(fs, c, up);
        assert q in fs ==> Look(fs, up) == Some(DirNode);
      }
    }
  }

  lemma {:induction false} TreeAlways(fs: Fs, cs: seq<Change>)
    requires IsTree(fs)
    ensures IsTree(ApplyAll(fs, cs))
    decreases |cs|
  {
    if cs != [] {
      TreeKept(fs, cs[0]);
      TreeAlways(ApplyChange(fs, cs[0]), cs[1..]);
    }
  }

  // ----- the tracker -----

  datatype AncestorState = IsDirectory | Missing | Blocked

  datatype Tracker = Tracker(
    digest: string, bytes: int, ancestors: map<string, AncestorState>,
    members: int, expanded: int, names: set<string>)

  const FRESH: Tracker := Tracker("", 0, map[], 0, 0, {})

  function Forgotten(t: Tracker): Tracker { t.(digest := "", bytes := 0) }

  /** The ancestor loop of both markers. */
  function Marked(st: map<string, AncestorState>, names: seq<string>, hides: string -> bool): map<string, AncestorState>
    decreases |names|
  {
    if names == [] then st
    else Marked(if hides(names[0]) then st[names[0] := Missing] else st, names[1..], hides)
  }

  function OpaqueDir(name: string): string { StripRight(Dirname(name)) }

  predicate OpaqueHides(name: string, s: string) { OpaqueDir(name) + "/" <= s }

  function Removed(name: string): string { JoinPath(Dirname(name), RemovePrefix(Basename(name), WHITEOUT)) }

  predicate WhiteoutHides(name: string, s: string) { s == Removed(name) || StripRight(Removed(name)) + "/" <= s }

  predicate Standing(t: Tracker, a: string) { a !in t.ancestors || t.ancestors[a].IsDirectory? }

  predicate AllStanding(t: Tracker) { forall i :: 0 <= i < |ANCESTORS| ==> Standing(t, ANCESTORS[i]) }

  /** The name-driven part of the scan; `None` is the raised error. */
  function TrackName(t: Tracker, name: string, kind: Kind): Option<Tracker> {
    var base := Basename(name);
    if base == OPAQUE then
      var d := OpaqueDir(name);
      var seen := if d in ANCESTORS then t.ancestors[d := IsDirectory] else t.ancestors;
      var cut := if OpaqueHides(name, BINARY) then Forgotten(t) else t;
      Some(cut.(ancestors := Marked(seen, ANCESTORS, a => OpaqueHides(name, a))))
    else if WHITEOUT <= base then
      var cut := if WhiteoutHides(name, BINARY) then Forgotten(t) else t;
      Some(cut.(ancestors := Marked(t.ancestors, ANCESTORS, a => WhiteoutHides(name, a))))
    else if name in ANCESTORS then
      if kind.Directory? then Some(t.(ancestors := t.ancestors[name := IsDirectory]))
      else Some(Forgotten(t).(ancestors := t.ancestors[name := Blocked]))
    else if name == BINARY then
      if !kind.File? || kind.size < 1 || kind.size > MAX_BINARY_BYTES || !AllStanding(t) then None
      else Some(t.(digest := DigestOf(kind.hash), bytes := kind.size))
    else Some(t)
  }

  predicate MemberAllowed(m: Member) {
    && SafeMemberName(m.raw) && !m.kind.Special?
    && (m.kind.SymLink? || m.kind.HardLink? ==> SafeLinkTarget(NameOf(m.raw), m.kind.target))
  }

  function TrackMember(t: Tracker, m: Member): Option<Tracker> {
    var name := NameOf(m.raw);
    var size := if m.kind.File? then m.kind.size else 0;
    if t.members + 1 > MAX_LAYER_MEMBERS || !MemberAllowed(m) || name in t.names then None
    else if m.kind.File? && (size < 0 || size > MAX_MEMBER_BYTES || t.expanded + size > MAX_LAYER_EXPANDED_BYTES) then None
    else TrackName(t.(members := t.members + 1, names := t.names + {name}, expanded := t.expanded + size), name, m.kind)
  }

  function TrackMembers(t: Tracker, ms: seq<Member>): Option<Tracker>
    decreases |ms|
  {
    if ms == [] then Some(t)
    else
      var next := TrackMember(t, ms[0]);
      if next.None? then None else TrackMembers(next.value, ms[1..])
  }

  /** Names must be unique within a layer only. */
  function TrackLayers(t: Tracker, layers: seq<seq<Member>>): Option<Tracker>
    decreases |layers|
  {
    if layers == [] then Some(t)
    else
      var next := TrackMembers(t.(names := {}), layers[0]);
      if next.None? then None else TrackLayers(next.value, layers[1..])
  }

  // ----- strings and components agree -----

  lemma BinaryPaths()
    ensures Split(USR) == BIN[..1] && Split(USR_LOCAL) == BIN[..2] && Split(USR_LOCAL_BIN) == BIN[..3]
    ensures Split(BINARY) == BIN
  {
    hide Split;
    SplitOne("usr");
    SplitOne("local");
    SplitOne("bin");
    SplitOne("masi-edge");
    SplitSlash(USR, "local");
    SplitSlash(USR_LOCAL, "bin");
    SplitSlash(USR_LOCAL_BIN, "masi-edge");
  }

  /** The tracker's reading of a change: what it takes to be hidden. */
  predicate Hides(c: Change, q: Path) {
    match c
    case Opaque(dir) => dir != [] && dir < q
    case Whiteout(dir, name) => if name == "" then dir != [] && dir < q else dir + [name] <= q
    case Entry(_, _) => false
  }

  lemma StripNothing(s: string)
    requires s != "" ==> s[|s| - 1] != '/'
    ensures StripRight(s) == s
  {
  }

  lemma StripOne(s: string)
    requires s != "" ==> s[|s| - 1] != '/'
    ensures StripRight(s + "/") == s
  {
    assert (s + "/")[..|s|] == s;
    StripNothing(s);
  }

  /** The reach of an opaque marker whose directory string is `d`. */
  lemma OpaqueReach(d: string, dir: Path, s: string)
    requires AllProper(Split(s)) && (if dir == [] then d == "" else Split(d) == dir)
    ensures d + "/" <= s <==> Hides(Opaque(dir), Split(s))
    ensures d == s <==> dir == Split(s)
  {
    assert Split("") == [""];
    BeneathExactly(d, s);
    SplitInjective(d, s);
    hide Split;
    assert Proper(Split(s)[0]);
  }

  lemma OpaqueDirPath(name: string)
    requires AllProper(Split(name))
    ensures var dir := Split(name)[..|Split(name)| - 1]; if dir == [] then OpaqueDir(name) == "" else Split(OpaqueDir(name)) == dir
  {
    DirnameOfProper(name);
    StripNothing(Dirname(name));
    SplitPlain(name);
    NothingJoined();
    hide Split, Dirname, StripRight, Join;
    var dir := Split(name)[..|Split(name)| - 1];
    if dir != [] {
      SplitJoin(dir);
    }
  }

  lemma OpaqueHidesExactly(name: string, s: string)
    requires AllProper(Components(name)) && Basename(name) == OPAQUE
    requires AllProper(Split(s))
    ensures OpaqueHides(name, s) <==> Hides(ChangeOf(name, Directory), Split(s))
    ensures OpaqueDir(name) == s <==> ChangeOf(name, Directory) == Opaque(Split(s))
  {
    SplitOne(".");
    OpaqueDirPath(name);
    hide Split, OpaqueDir, Hides;
    var dir := Split(name)[..|Split(name)| - 1];
    assert ChangeOf(name, Directory) == Opaque(dir);
    OpaqueReach(OpaqueDir(name), dir, s);
  }

  lemma RemovedPath(name: string)
    requires AllProper(Split(name)) && WHITEOUT <= Basename(name)
    ensures var cs := Split(name); var dir, x := cs[..|cs| - 1], Basename(name)[|WHITEOUT|..];
      && (x != "" ==> Split(Removed(name)) == dir + [x] && StripRight(Removed(name)) == Removed(name))
      && (x == "" && dir == [] ==> Removed(name) == "")
      && (x == "" && dir != [] ==> Removed(name) == Join(dir) + "/" && StripRight(Removed(name)) == Join(dir))
  {
    var cs := Split(name);
    var dir, x := cs[..|cs| - 1], Basename(name)[|WHITEOUT|..];
    SplitPlain(name);
    assert Plain(Basename(name));
    assert Plain(x);
    SplitOne(x);
    DirnameOfProper(name);
    RemovedJoin(name, x);
    NothingJoined();
    hide Split, StripRight, Join, Dirname, Removed;
    if dir == [] {
      StripNothing(x);
    } else {
      SplitJoin(dir);
      SplitSlash(Join(dir), x);
      if x == "" {
        StripOne(Join(dir));
      } else {
        LastOfJoin(Join(dir), x);
        StripNothing(Removed(name));
      }
    }
  }

  lemma LastOfJoin(d: string, x: string)
    requires x != ""
    ensures (d + "/" + x)[|d + "/" + x| - 1] == x[|x| - 1]
  {
  }

  lemma RemovedJoin(name: string, x: string)
    requires WHITEOUT <= Basename(name) && x == Basename(name)[|WHITEOUT|..] && Plain(x)
    requires Dirname(name) != "" ==> Dirname(name)[|Dirname(name)| - 1] != '/'
    ensures Removed(name) == if Dirname(name) == "" then x else Dirname(name) + "/" + x
    ensures x == "" && Dirname(name) != "" ==> Removed(name) == Dirname(name) + "/"
  {
    hide Split, Dirname, Basename;
    assert x != "" ==> x[0] != '/';
  }

  lemma RemovalReach(r: string, dir: Path, x: string, s: string)
    requires AllProper(Split(s)) && AllProper(dir) && AllPlain(dir)
    requires x != "" ==> Split(r) == dir + [x] && StripRight(r) == r
    requires x == "" && dir == [] ==> r == ""
    requires x == "" && dir != [] ==> r == Join(dir) + "/" && StripRight(r) == Join(dir)
    ensures (s == r || StripRight(r) + "/" <= s) <==> Hides(Whiteout(dir, x), Split(s))
  {
    assert Split("") == [""] && StripRight("") == "";
    SplitPlain(s);
    JoinSplit(s);
    JoinEnds(Split(s));
    BeneathExactly(StripRight(r), s);
    hide Split, StripRight, Join;
    if x != "" {
      SplitInjective(r, s);
    } else if dir == [] {
      assert Proper(Split(s)[0]);
    } else {
      SplitJoin(dir);
      assert r[|r| - 1] == '/';
    }
  }

  lemma NotRoot(name: string)
    requires WHITEOUT <= Basename(name)
    ensures name != "."
  {
    SplitOne(".");
    assert |WHITEOUT| == 4;
  }

  lemma WhiteoutHidesExactly(name: string, s: string)
    requires AllProper(Components(name)) && Basename(name) != OPAQUE && WHITEOUT <= Basename(name)
    requires AllProper(Split(s))
    ensures WhiteoutHides(name, s) <==> Hides(ChangeOf(name, Directory), Split(s))
  {
    hide Split, StripRight, Join, Dirname, Removed, Hides;
    NotRoot(name);
    RemovedPath(name);
    SplitPlain(name);
    var cs := Split(name);
    var dir, x := cs[..|cs| - 1], Basename(name)[|WHITEOUT|..];
    assert ChangeOf(name, Directory) == Whiteout(dir, x);
    RemovalReach(Removed(name), dir, x, s);
  }

  // ----- refinement -----

  lemma {:induction false} MarkedAt(st: map<string, AncestorState>, names: seq<string>, hides: string -> bool, a: string)
    ensures var next := Marked(st, names, hides);
      if a in names && hides(a) then a in next && next[a] == Missing
      else (a in next <==> a in st) && (a in st ==> next[a] == st[a])
    decreases |names|
  {
    if names != [] {
      MarkedAt(if hides(names[0]) then st[names[0] := Missing] else st, names[1..], hides, a);
    }
  }

  /** Members below the binary path, and an opaque marker for the root: the tracker does not react to either. */
  predicate Overlooked(c: Change) {
    match c
    case Opaque(dir) => dir == [] || BIN <= dir
    case Whiteout(dir, _) => BIN <= dir
    case Entry(path, _) => BIN < path
  }

  /** A whiteout without a name hides nothing, but the tracker takes it for an opaque marker. */
  predicate Nameless(c: Change) { c.Whiteout? && c.name == "" }

  /** Nothing overlooked since the binary was last written. */
  predicate Clean(clean: bool, c: Change) {
    if Overlooked(c) then false else if c.Entry? && c.path == BIN then true else clean
  }

  function AncestorPath(i: nat): Path
    requires i < 3
  {
    BIN[..i + 1]
  }

  /** A digest is kept or written only where the filesystem keeps or gets that very file. */
  predicate KeepsDigest(t: Tracker, next: Tracker, c: Change) {
    next.digest != "" ==>
      || c == Entry(BIN, FileNode(next.digest, next.bytes))
      || (next.digest == t.digest && next.bytes == t.bytes && (At(c, BIN).Keep? || Overlooked(c)))
  }

  /** A digest is forgotten only where the filesystem loses the file. */
  predicate ForgetsDigest(t: Tracker, next: Tracker, c: Change) {
    next.digest == "" ==> (t.digest == "" && !(c.Entry? && c.path == BIN)) || At(c, BIN) == Become(None) || Nameless(c)
  }

  /** An ancestor counts as standing only where the filesystem has no other kind of entry. */
  predicate KeepsAncestor(t: Tracker, next: Tracker, c: Change, i: nat)
    requires i < 3
  {
    Standing(next, ANCESTORS[i]) ==>
      || At(c, AncestorPath(i)) == Become(None) || At(c, AncestorPath(i)) == Become(Some(DirNode))
      || (At(c, AncestorPath(i)).Keep? && Standing(t, ANCESTORS[i]))
  }

  /** One step of the tracker against the effect of the change at the four paths it watches. */
  predicate Follows(t: Tracker, next: Tracker, c: Change) {
    && KeepsDigest(t, next, c) && ForgetsDigest(t, next, c)
    && KeepsAncestor(t, next, c, 0) && KeepsAncestor(t, next, c, 1) && KeepsAncestor(t, next, c, 2)
  }

  lemma ProperPaths()
    ensures AllProper(Split(BINARY)) && Split(BINARY) == BIN
    ensures forall i :: 0 <= i < |ANCESTORS| ==> AllProper(Split(ANCESTORS[i])) && Split(ANCESTORS[i]) == AncestorPath(i)
  {
    BinaryPaths();
    hide Split;
  }

  lemma OpaqueAncestor(t: Tracker, name: string, kind: Kind, i: nat)
    requires AllProper(Components(name)) && Basename(name) == OPAQUE && i < 3
    ensures KeepsAncestor(t, TrackName(t, name, kind).value, ChangeOf(name, kind), i)
  {
    ProperPaths();
    SplitOne(".");
    var c := ChangeOf(name, kind);
    assert c == ChangeOf(name, Directory) && c.Opaque?;
    var d := OpaqueDir(name);
    var seen := if d in ANCESTORS then t.ancestors[d := IsDirectory] else t.ancestors;
    OpaqueHidesExactly(name, ANCESTORS[i]);
    MarkedAt(seen, ANCESTORS, a => OpaqueHides(name, a), ANCESTORS[i]);
    hide Split, Marked, OpaqueDir, OpaqueHides, ChangeOf;
  }

  lemma FollowsOpaque(t: Tracker, name: string, kind: Kind)
    requires AllProper(Components(name)) && Basename(name) == OPAQUE
    ensures TrackName(t, name, kind).Some? && Follows(t, TrackName(t, name, kind).value, ChangeOf(name, kind))
  {
    ProperPaths();
    OpaqueHidesExactly(name, BINARY);
    SplitOne(".");
    assert ChangeOf(name, kind) == ChangeOf(name, Directory) && ChangeOf(name, kind).Opaque?;
    OpaqueAncestor(t, name, kind, 0);
    OpaqueAncestor(t, name, kind, 1);
    OpaqueAncestor(t, name, kind, 2);
    hide Split, Marked, OpaqueDir, OpaqueHides, ChangeOf, KeepsAncestor;
  }

  /** The nameless component is on no watched path. */
  lemma NamelessMisses(dir: Path, q: Path)
    requires q <= BIN
    ensures !(dir + [""] <= q)
  {
    assert (dir + [""])[|dir|] == "";
  }

  lemma WhiteoutAncestor(t: Tracker, name: string, kind: Kind, i: nat)
    requires AllProper(Components(name)) && Basename(name) != OPAQUE && WHITEOUT <= Basename(name) && i < 3
    ensures KeepsAncestor(t, TrackName(t, name, kind).value, ChangeOf(name, kind), i)
  {
    ProperPaths();
    SplitOne(".");
    var c := ChangeOf(name, kind);
    assert c == ChangeOf(name, Directory) && c.Whiteout?;
    WhiteoutHidesExactly(name, ANCESTORS[i]);
    NamelessMisses(c.dir, AncestorPath(i));
    MarkedAt(t.ancestors, ANCESTORS, a => WhiteoutHides(name, a), ANCESTORS[i]);
    hide Split, Marked, WhiteoutHides, ChangeOf;
  }

  lemma FollowsWhiteout(t: Tracker, name: string, kind: Kind)
    requires AllProper(Components(name)) && Basename(name) != OPAQUE && WHITEOUT <= Basename(name)
    ensures TrackName(t, name, kind).Some? && Follows(t, TrackName(t, name, kind).value, ChangeOf(name, kind))
  {
    ProperPaths();
    WhiteoutHidesExactly(name, BINARY);
    SplitOne(".");
    var c := ChangeOf(name, kind);
    assert c == ChangeOf(name, Directory) && c.Whiteout?;
    NamelessMisses(c.dir, BIN);
    WhiteoutAncestor(t, name, kind, 0);
    WhiteoutAncestor(t, name, kind, 1);
    WhiteoutAncestor(t, name, kind, 2);
    hide Split, Marked, WhiteoutHides, ChangeOf, KeepsAncestor;
  }

  lemma NamedExactly(name: string, s: string)
    requires name != "." && s != "."
    ensures name == s <==> Components(name) == Split(s)
  {
    SplitInjective(name, s);
  }

  /** The path of an ordinary entry, and which of the watched names it can be. */
  lemma EntryPath(name: string, kind: Kind)
    requires AllProper(Components(name)) && !(WHITEOUT <= Basename(name))
    ensures var c := ChangeOf(name, kind);
      && c == (if name == "." then Entry([], DirNode) else Entry(Components(name), NodeOf(kind)))
      && (name == BINARY <==> c.path == BIN)
      && (name == USR <==> c.path == AncestorPath(0)) && (name == USR_LOCAL <==> c.path == AncestorPath(1))
      && (name == USR_LOCAL_BIN <==> c.path == AncestorPath(2))
  {
    ProperPaths();
    SplitOne(".");
    assert WHITEOUT <= OPAQUE;
    assert ANCESTORS[0] == USR && ANCESTORS[1] == USR_LOCAL && ANCESTORS[2] == USR_LOCAL_BIN;
    assert |USR| > 1 && |USR_LOCAL| > 1 && |USR_LOCAL_BIN| > 1 && |BINARY| > 1;
    if name != "." {
      NamedExactly(name, BINARY);
      NamedExactly(name, USR);
      NamedExactly(name, USR_LOCAL);
      NamedExactly(name, USR_LOCAL_BIN);
    }
    hide Split;
  }

  /** The proper prefixes of the binary path are the root and the three ancestors. */
  lemma AboveBinary(p: Path)
    requires p < BIN
    ensures p == [] || p == AncestorPath(0) || p == AncestorPath(1) || p == AncestorPath(2)
  {
    assert p == BIN[..|p|];
  }

  lemma FollowsEntry(t: Tracker, name: string, kind: Kind)
    requires AllProper(Components(name)) && !(WHITEOUT <= Basename(name)) && !kind.Special?
    ensures TrackName(t, name, kind).Some? ==> Follows(t, TrackName(t, name, kind).value, ChangeOf(name, kind))
  {
    EntryPath(name, kind);
    assert WHITEOUT <= OPAQUE;
    hide Split, ChangeOf, Components, Basename, Join;
    var p := ChangeOf(name, kind).path;
    if p < BIN {
      AboveBinary(p);
    }
    EntryFollows(t, name, kind, ChangeOf(name, kind));
  }

  lemma EntryFollows(t: Tracker, name: string, kind: Kind, c: Change)
    requires !(WHITEOUT <= Basename(name)) && !kind.Special?
    requires c.Entry? && (if c.path == [] then name == "." else c.node == NodeOf(kind))
    requires name == BINARY <==> c.path == BIN
    requires name == USR <==> c.path == AncestorPath(0)
    requires name == USR_LOCAL <==> c.path == AncestorPath(1)
    requires name == USR_LOCAL_BIN <==> c.path == AncestorPath(2)
    requires c.path < BIN ==> c.path == [] || name in ANCESTORS
    ensures TrackName(t, name, kind).Some? ==> Follows(t, TrackName(t, name, kind).value, c)
  {
    hide Split, ChangeOf, Components, Basename, Join;
    assert WHITEOUT <= OPAQUE;
    var next := TrackName(t, name, kind);
    if next.Some? {
      assert KeepsDigest(t, next.value, c);
      assert ForgetsDigest(t, next.value, c);
    }
  }

  lemma StepFollows(t: Tracker, name: string, kind: Kind)
    requires AllProper(Components(name)) && !kind.Special?
    ensures TrackName(t, name, kind).Some? ==> Follows(t, TrackName(t, name, kind).value, ChangeOf(name, kind))
  {
    if Basename(name) == OPAQUE {
      FollowsOpaque(t, name, kind);
    } else if WHITEOUT <= Basename(name) {
      FollowsWhiteout(t, name, kind);
    } else {
      FollowsEntry(t, name, kind);
    }
  }

  /** The tracker against the filesystem built from the same members. */
  predicate Agrees(t: Tracker, fs: Fs, clean: bool) {
    && (t.digest != "" && clean ==> Look(fs, BIN) == Some(FileNode(t.digest, t.bytes)))
    && (t.digest != "" && !clean ==> !HoldsFile(fs))
    && (forall i :: 0 <= i < 3 && Standing(t, ANCESTORS[i]) ==> Look(fs, AncestorPath(i)) in {None, Some(DirNode)})
  }

  predicate HoldsFile(fs: Fs) { BIN in fs && fs[BIN].FileNode? }

  lemma AtBinary(c: Change)
    ensures Overlooked(c) ==> At(c, BIN) == Become(None) || At(c, BIN) == Become(Some(DirNode))
    ensures c.Entry? && c.path == BIN ==> At(c, BIN) == Become(Some(c.node)) && !Overlooked(c)
  {
  }

  lemma FollowedAgrees(t: Tracker, next: Tracker, fs: Fs, clean: bool, c: Change)
    requires Agrees(t, fs, clean) && Follows(t, next, c)
    ensures Agrees(next, ApplyChange(fs, c), Clean(clean, c))
  {
    ApplyAt(fs, c, BIN);
    ApplyAt(fs, c, AncestorPath(0));
    ApplyAt(fs, c, AncestorPath(1));
    ApplyAt(fs, c, AncestorPath(2));
    AtBinary(c);
    hide ApplyChange, At, Overlooked;
    forall i | 0 <= i < 3 && Standing(next, ANCESTORS[i])
      ensures Look(ApplyChange(fs, c), AncestorPath(i)) in {None, Some(DirNode)}
    {
      assert KeepsAncestor(t, next, c, i);
    }
  }

  // ----- whole runs -----

  function ChangesOf(ms: seq<Member>): seq<Change> {
    if ms == [] then [] else [ChangeOf(NameOf(ms[0].raw), ms[0].kind)] + ChangesOf(ms[1..])
  }

  function AllMembers(layers: seq<seq<Member>>): seq<Member> {
    if layers == [] then [] else layers[0] + AllMembers(layers[1..])
  }

  predicate CleanAfter(clean: bool, cs: seq<Change>)
    decreases |cs|
  {
    if cs == [] then clean else CleanAfter(Clean(clean, cs[0]), cs[1..])
  }

  lemma AcceptedName(m: Member)
    requires MemberAllowed(m)
    ensures AllProper(Components(NameOf(m.raw))) && !m.kind.Special?
  {
    SafeNamesExactly(m.raw);
  }

  lemma MemberFollows(t: Tracker, m: Member)
    requires TrackMember(t, m).Some?
    ensures Follows(t, TrackMember(t, m).value, ChangeOf(NameOf(m.raw), m.kind))
  {
    hide At, NameOf, MemberAllowed, ChangeOf, TrackName, AllProper, Components, Overlooked;
    var name := NameOf(m.raw);
    var size := if m.kind.File? then m.kind.size else 0;
    var counted := t.(members := t.members + 1, names := t.names + {name}, expanded := t.expanded + size);
    assert TrackMember(t, m) == TrackName(counted, name, m.kind);
    AcceptedName(m);
    StepFollows(counted, name, m.kind);
  }

  lemma MemberAgrees(t: Tracker, m: Member, fs: Fs, clean: bool)
    requires Agrees(t, fs, clean) && TrackMember(t, m).Some?
    ensures var c := ChangeOf(NameOf(m.raw), m.kind); Agrees(TrackMember(t, m).value, ApplyChange(fs, c), Clean(clean, c))
  {
    hide TrackMember, Agrees, Follows, Clean, ApplyChange;
    MemberFollows(t, m);
    FollowedAgrees(t, TrackMember(t, m).value, fs, clean, ChangeOf(NameOf(m.raw), m.kind));
  }

  lemma {:induction false} MembersAgree(t: Tracker, ms: seq<Member>, fs: Fs, clean: bool)
    requires Agrees(t, fs, clean) && TrackMembers(t, ms).Some?
    ensures Agrees(TrackMembers(t, ms).value, ApplyAll(fs, ChangesOf(ms)), CleanAfter(clean, ChangesOf(ms)))
    decreases |ms|
  {
    hide Agrees, TrackMember, ApplyChange, Clean;
    if ms != [] {
      var c := ChangeOf(NameOf(ms[0].raw), ms[0].kind);
      MemberAgrees(t, ms[0], fs, clean);
      MembersAgree(TrackMember(t, ms[0]).value, ms[1..], ApplyChange(fs, c), Clean(clean, c));
      assert ChangesOf(ms)[1..] == ChangesOf(ms[1..]);
    }
  }

  lemma {:induction false} ChangesConcat(a: seq<Member>, b: seq<Member>)
    ensures ChangesOf(a + b) == ChangesOf(a) + ChangesOf(b)
  {
    hide ChangeOf, NameOf;
    if a == [] {
      assert a + b == b;
    } else {
      ChangesConcat(a[1..], b);
      assert (a + b)[1..] == a[1..] + b;
    }
  }

  lemma {:induction false} RunsConcat(fs: Fs, clean: bool, a: seq<Change>, b: seq<Change>)
    ensures ApplyAll(fs, a + b) == ApplyAll(ApplyAll(fs, a), b)
    ensures CleanAfter(clean, a + b) == CleanAfter(CleanAfter(clean, a), b)
    decreases |a|
  {
    if a == [] {
      assert a + b == b;
    } else {
      RunsConcat(ApplyChange(fs, a[0]), Clean(clean, a[0]), a[1..], b);
      assert (a + b)[1..] == a[1..] + b;
    }
  }

  lemma {:induction false} LayersAgree(t: Tracker, layers: seq<seq<Member>>, fs: Fs, clean: bool)
    requires Agrees(t, fs, clean) && TrackLayers(t, layers).Some?
    ensures var cs := ChangesOf(AllMembers(layers));
      Agrees(TrackLayers(t, layers).value, ApplyAll(fs, cs), CleanAfter(clean, cs))
    decreases |layers|
  {
    if layers != [] {
      var u := t.(names := {});
      var here, later := ChangesOf(layers[0]), ChangesOf(AllMembers(layers[1..]));
      assert Agrees(u, fs, clean);
      hide Agrees, TrackMembers, Clean, ApplyChange;
      MembersAgree(u, layers[0], fs, clean);
      LayersAgree(TrackMembers(u, layers[0]).value, layers[1..], ApplyAll(fs, here), CleanAfter(clean, here));
      ChangesConcat(layers[0], AllMembers(layers[1..]));
      RunsConcat(fs, clean, here, later);
    }
  }

  /**
   The inspector's report is the file of the full filesystem, if and only if since
   the last write of the binary no member lay beneath it and no opaque marker
   cleared the root.
   */
  lemma ReportExactly(layers: seq<seq<Member>>)
    requires TrackLayers(FRESH, layers).Some? && TrackLayers(FRESH, layers).value.digest != ""
    ensures var cs := ChangesOf(AllMembers(layers)); var fs := ApplyAll(map[], cs);
      && (FsDigest(fs) == TrackLayers(FRESH, layers).value.digest <==> CleanAfter(true, cs))
      && (CleanAfter(true, cs) ==> fs[BIN].size == TrackLayers(FRESH, layers).value.bytes)
      && (!CleanAfter(true, cs) ==> FsDigest(fs) == "")
  {
    assert Agrees(FRESH, map[], true);
    LayersAgree(FRESH, layers, map[], true);
    hide ApplyAll, TrackLayers, CleanAfter, ChangesOf;
  }

  /** Whenever the binary is written, every ancestor in the filesystem is a directory or not there yet. */
  lemma BinaryParents(t: Tracker, fs: Fs, clean: bool, m: Member)
    requires Agrees(t, fs, clean) && TrackMember(t, m).Some? && NameOf(m.raw) == BINARY
    ensures forall k :: 1 <= k < |BIN| ==> Look(fs, BIN[..k]) in {None, Some(DirNode)}
  {
    ProperPaths();
    hide Split, MemberAllowed, NameOf;
    assert BIN[|BIN| - 1] == "masi-edge" && WHITEOUT <= OPAQUE;
    assert WHITEOUT[0] != "masi-edge"[0];
    assert |USR| < |USR_LOCAL| < |USR_LOCAL_BIN| < |BINARY|;
    assert AllStanding(t);
    forall k | 1 <= k < |BIN|
      ensures Look(fs, BIN[..k]) in {None, Some(DirNode)}
    {
      assert BIN[..k] == AncestorPath(k - 1) && Standing(t, ANCESTORS[k - 1]);
    }
  }
}
