/**
 The tracker reduced to what it can ever tell: the digest it holds and which of
 the three ancestors stand.  One member acts on that view by its change alone, and
 trackers with the same view and counts are never told apart again.
 */
module OverlayView {
  import opened Prelude
  import opened Paths
  import opened Overlay
  import opened OverlayScan
  import opened OverlaySwap

  // ----- the tracker -----

  /** The scan's own bookkeeping of one member, and the checks on it. */
  function Counted(t: Tracker, m: Member): Tracker {
    t.(members := t.members + 1, names := t.names + {NameOf(m.raw)}, expanded := t.expanded + Size(m))
  }

  function Size(m: Member): int { if m.kind.File? then m.kind.size else 0 }

  predicate Countable(t: Tracker, m: Member) {
    && t.members + 1 <= MAX_LAYER_MEMBERS && MemberAllowed(m) && NameOf(m.raw) !in t.names
    && (m.kind.File? ==> 0 <= m.kind.size <= MAX_MEMBER_BYTES && t.expanded + m.kind.size <= MAX_LAYER_EXPANDED_BYTES)
  }

  lemma TrackCounted(t: Tracker, m: Member)
    ensures TrackMember(t, m) == if Countable(t, m) then TrackName(Counted(t, m), NameOf(m.raw), m.kind) else None
  {
    hide MemberAllowed, NameOf, TrackName;
  }

  lemma MarkedNothing(st: map<string, AncestorState>, hides: string -> bool)
    requires forall i :: 0 <= i < |ANCESTORS| ==> !hides(ANCESTORS[i])
    ensures Marked(st, ANCESTORS, hides) == st
  {
    var r := Marked(st, ANCESTORS, hides);
    forall a: string
      ensures (a in r <==> a in st) && (a in st ==> r[a] == st[a])
    {
      MarkedAt(st, ANCESTORS, hides, a);
    }
    assert r.Keys == st.Keys;
  }

  lemma NotAbove(x: Path, i: nat)
    requires i < 3 && !(x <= BIN)
    ensures !(x <= AncestorPath(i))
  {
    assert x <= BIN[..i + 1] ==> x <= BIN;
  }

  /** What a whiteout without a name makes the tracker forget: everything strictly below its directory. */
  predicate Reaches(c: Change) { Nameless(c) && c.dir != [] && c.dir < BIN }

  /** A member away from the binary path and all its parents is nothing to the tracker, unless it is a nameless whiteout above it. */
  lemma OutOfSight(t: Tracker, name: string, kind: Kind)
    requires AllProper(Components(name)) && !kind.Special?
    requires !(Site(ChangeOf(name, kind)) <= BIN) && !Reaches(ChangeOf(name, kind))
    ensures TrackName(t, name, kind) == Some(t)
  {
    if Basename(name) == OPAQUE {
      OpaqueOutOfSight(t, name, kind);
    } else if WHITEOUT <= Basename(name) {
      WhiteoutOutOfSight(t, name, kind);
    } else {
      EntryPath(name, kind);
      NotAbove(ChangeOf(name, kind).path, 0);
      hide Split, ChangeOf, Components, Basename, Join;
      assert WHITEOUT <= OPAQUE;
    }
  }

  lemma OpaqueOutOfSight(t: Tracker, name: string, kind: Kind)
    requires AllProper(Components(name)) && Basename(name) == OPAQUE && !(Site(ChangeOf(name, kind)) <= BIN)
    ensures TrackName(t, name, kind) == Some(t)
  {
    ProperPaths();
    SplitOne(".");
    var c := ChangeOf(name, kind);
    assert c == ChangeOf(name, Directory) && c.Opaque?;
    OpaqueHidesExactly(name, BINARY);
    forall i | 0 <= i < |ANCESTORS|
      ensures !OpaqueHides(name, ANCESTORS[i]) && OpaqueDir(name) != ANCESTORS[i]
    {
      OpaqueHidesExactly(name, ANCESTORS[i]);
      NotAbove(c.dir, i);
    }
    MarkedNothing(t.ancestors, a => OpaqueHides(name, a));
    hide Split, Marked, OpaqueDir, OpaqueHides, ChangeOf;
  }

  lemma WhiteoutOutOfSight(t: Tracker, name: string, kind: Kind)
    requires AllProper(Components(name)) && Basename(name) != OPAQUE && WHITEOUT <= Basename(name)
    requires !(Site(ChangeOf(name, kind)) <= BIN) && !Reaches(ChangeOf(name, kind))
    ensures TrackName(t, name, kind) == Some(t)
  {
    ProperPaths();
    SplitOne(".");
    var c := ChangeOf(name, kind);
    assert c == ChangeOf(name, Directory) && c.Whiteout?;
    WhiteoutHidesExactly(name, BINARY);
    forall i | 0 <= i < |ANCESTORS|
      ensures !WhiteoutHides(name, ANCESTORS[i])
    {
      WhiteoutHidesExactly(name, ANCESTORS[i]);
      NotAbove(Site(c), i);
      assert c.dir < AncestorPath(i) ==> c.dir < BIN;
    }
    MarkedNothing(t.ancestors, a => WhiteoutHides(name, a));
    hide Split, Marked, WhiteoutHides, ChangeOf;
  }

  // ----- what the tracker sees -----

  /** The tracker as far as it can ever tell: the digest, and which ancestors stand. */
  datatype Seen = Seen(digest: string, bytes: int, up0: bool, up1: bool, up2: bool)

  function View(t: Tracker): Seen {
    Seen(t.digest, t.bytes, Standing(t, ANCESTORS[0]), Standing(t, ANCESTORS[1]), Standing(t, ANCESTORS[2]))
  }

  /** Whether the ancestor at `q` stands after a change. */
  predicate UpAfter(c: Change, q: Path, was: bool) {
    match c
    case Opaque(dir) => dir == q || (!Hides(c, q) && was)
    case Whiteout(_, _) => !Hides(c, q) && was
    case Entry(path, node) => if path == q then node.DirNode? else was
  }

  predicate IsBinary(node: Node) { node.FileNode? && 1 <= node.size <= MAX_BINARY_BYTES }

  predicate AtBin(c: Change) { c.Entry? && c.path == BIN }

  predicate Drops(c: Change) { Hides(c, BIN) || (c.Entry? && c.path != [] && c.path < BIN && !c.node.DirNode?) }

  function See(v: Seen, c: Change): Option<Seen> {
    if AtBin(c) && !(IsBinary(c.node) && v.up0 && v.up1 && v.up2) then None
    else
      var digest := if AtBin(c) then c.node.digest else if Drops(c) then "" else v.digest;
      var bytes := if AtBin(c) then c.node.size else if Drops(c) then 0 else v.bytes;
      Some(Seen(digest, bytes, UpAfter(c, AncestorPath(0), v.up0), UpAfter(c, AncestorPath(1), v.up1),
                UpAfter(c, AncestorPath(2), v.up2)))
  }

  /** Digest and standing of `next` are what the change makes of those of `t`, and nothing else has changed. */
  predicate SeenStep(t: Tracker, next: Option<Tracker>, c: Change) {
    && (next.Some? <==> See(View(t), c).Some?)
    && (next.Some? ==> View(next.value) == See(View(t), c).value && SameCounts(next.value, t))
  }

  predicate SameCounts(t: Tracker, u: Tracker) { t.members == u.members && t.names == u.names && t.expanded == u.expanded }

  lemma OpaqueStands(t: Tracker, name: string, kind: Kind, i: nat)
    requires AllProper(Components(name)) && Basename(name) == OPAQUE && i < 3
    ensures TrackName(t, name, kind).Some?
    ensures Standing(TrackName(t, name, kind).value, ANCESTORS[i]) == UpAfter(ChangeOf(name, kind), AncestorPath(i), Standing(t, ANCESTORS[i]))
  {
    ProperPaths();
    SplitOne(".");
    var c := ChangeOf(name, kind);
    assert c == ChangeOf(name, Directory) && c.Opaque?;
    var d := OpaqueDir(name);
    var seen := if d in ANCESTORS then t.ancestors[d := IsDirectory] else t.ancestors;
    OpaqueHidesExactly(name, ANCESTORS[i]);
    MarkedAt(seen, ANCESTORS, a => OpaqueHides(name, a), ANCESTORS[i]);
    hide Split, Marked, OpaqueDir, OpaqueHides, ChangeOf;
  }

  /** A step put together from its parts, for a change that is not at the binary path. */
  lemma Assembled(t: Tracker, next: Tracker, c: Change)
    requires !AtBin(c) && SameCounts(next, t)
    requires next.digest == (if Drops(c) then "" else t.digest) && next.bytes == if Drops(c) then 0 else t.bytes
    requires forall i :: 0 <= i < 3 ==> Standing(next, ANCESTORS[i]) == UpAfter(c, AncestorPath(i), Standing(t, ANCESTORS[i]))
    ensures SeenStep(t, Some(next), c)
  {
    hide Drops, UpAfter, Standing;
    assert Standing(next, ANCESTORS[0]) == UpAfter(c, AncestorPath(0), Standing(t, ANCESTORS[0]));
    assert Standing(next, ANCESTORS[1]) == UpAfter(c, AncestorPath(1), Standing(t, ANCESTORS[1]));
    assert Standing(next, ANCESTORS[2]) == UpAfter(c, AncestorPath(2), Standing(t, ANCESTORS[2]));
  }

  lemma OpaqueDigest(t: Tracker, name: string, kind: Kind)
    requires AllProper(Components(name)) && Basename(name) == OPAQUE
    ensures ChangeOf(name, kind).Opaque? && TrackName(t, name, kind).Some? && SameCounts(TrackName(t, name, kind).value, t)
    ensures var next, c := TrackName(t, name, kind).value, ChangeOf(name, kind);
      next.digest == (if Drops(c) then "" else t.digest) && next.bytes == if Drops(c) then 0 else t.bytes
  {
    ProperPaths();
    SplitOne(".");
    assert ChangeOf(name, kind) == ChangeOf(name, Directory) && ChangeOf(name, kind).Opaque?;
    OpaqueHidesExactly(name, BINARY);
    hide Split, Marked, OpaqueDir, OpaqueHides, ChangeOf, Hides;
  }

  lemma OpaqueSees(t: Tracker, name: string, kind: Kind)
    requires AllProper(Components(name)) && Basename(name) == OPAQUE
    ensures SeenStep(t, TrackName(t, name, kind), ChangeOf(name, kind))
  {
    hide Split, ChangeOf, UpAfter, Standing, Hides, Drops, TrackName, AllProper, Components, Basename, SeenStep;
    OpaqueDigest(t, name, kind);
    forall i | 0 <= i < 3
      ensures Standing(TrackName(t, name, kind).value, ANCESTORS[i]) == UpAfter(ChangeOf(name, kind), AncestorPath(i), Standing(t, ANCESTORS[i]))
    {
      OpaqueStands(t, name, kind, i);
    }
    Assembled(t, TrackName(t, name, kind).value, ChangeOf(name, kind));
  }

  lemma WhiteoutStands(t: Tracker, name: string, kind: Kind, i: nat)
    requires AllProper(Components(name)) && Basename(name) != OPAQUE && WHITEOUT <= Basename(name) && i < 3
    ensures TrackName(t, name, kind).Some?
    ensures Standing(TrackName(t, name, kind).value, ANCESTORS[i]) == UpAfter(ChangeOf(name, kind), AncestorPath(i), Standing(t, ANCESTORS[i]))
  {
    ProperPaths();
    SplitOne(".");
    var c := ChangeOf(name, kind);
    assert c == ChangeOf(name, Directory) && c.Whiteout?;
    WhiteoutHidesExactly(name, ANCESTORS[i]);
    MarkedAt(t.ancestors, ANCESTORS, a => WhiteoutHides(name, a), ANCESTORS[i]);
    hide Split, Marked, WhiteoutHides, ChangeOf, Hides;
  }

  lemma WhiteoutDigest(t: Tracker, name: string, kind: Kind)
    requires AllProper(Components(name)) && Basename(name) != OPAQUE && WHITEOUT <= Basename(name)
    ensures ChangeOf(name, kind).Whiteout? && TrackName(t, name, kind).Some? && SameCounts(TrackName(t, name, kind).value, t)
    ensures var next, c := TrackName(t, name, kind).value, ChangeOf(name, kind);
      next.digest == (if Drops(c) then "" else t.digest) && next.bytes == if Drops(c) then 0 else t.bytes
  {
    ProperPaths();
    SplitOne(".");
    assert ChangeOf(name, kind) == ChangeOf(name, Directory) && ChangeOf(name, kind).Whiteout?;
    WhiteoutHidesExactly(name, BINARY);
    hide Split, Marked, WhiteoutHides, ChangeOf, Hides;
  }

  lemma WhiteoutSees(t: Tracker, name: string, kind: Kind)
    requires AllProper(Components(name)) && Basename(name) != OPAQUE && WHITEOUT <= Basename(name)
    ensures SeenStep(t, TrackName(t, name, kind), ChangeOf(name, kind))
  {
    hide Split, ChangeOf, UpAfter, Standing, Hides, Drops, TrackName, AllProper, Components, Basename, SeenStep;
    WhiteoutDigest(t, name, kind);
    forall i | 0 <= i < 3
      ensures Standing(TrackName(t, name, kind).value, ANCESTORS[i]) == UpAfter(ChangeOf(name, kind), AncestorPath(i), Standing(t, ANCESTORS[i]))
    {
      WhiteoutStands(t, name, kind, i);
    }
    Assembled(t, TrackName(t, name, kind).value, ChangeOf(name, kind));
  }

  lemma EntryAncestors(t: Tracker, name: string, kind: Kind)
    requires !(WHITEOUT <= Basename(name)) && TrackName(t, name, kind).Some?
    ensures TrackName(t, name, kind).value.ancestors ==
      if name in ANCESTORS then t.ancestors[name := if kind.Directory? then IsDirectory else Blocked] else t.ancestors
  {
    assert WHITEOUT <= OPAQUE;
    hide Basename, AllStanding;
  }

  /** The ancestors by name and by path. */
  lemma AncestorNamed(name: string, kind: Kind, i: nat)
    requires AllProper(Components(name)) && !(WHITEOUT <= Basename(name)) && i < 3
    ensures ChangeOf(name, kind).Entry? && (name == ANCESTORS[i] <==> ChangeOf(name, kind).path == AncestorPath(i))
    ensures name == ANCESTORS[i] ==> (ChangeOf(name, kind).node.DirNode? <==> kind.Directory?)
  {
    EntryPath(name, kind);
    ProperPaths();
    hide Split, ChangeOf, Basename, Join;
    assert ANCESTORS[0] == USR && ANCESTORS[1] == USR_LOCAL && ANCESTORS[2] == USR_LOCAL_BIN;
    assert |AncestorPath(i)| > 0;
  }

  lemma EntryStands(t: Tracker, name: string, kind: Kind, i: nat)
    requires AllProper(Components(name)) && !(WHITEOUT <= Basename(name)) && i < 3
    requires TrackName(t, name, kind).Some?
    ensures Standing(TrackName(t, name, kind).value, ANCESTORS[i]) == UpAfter(ChangeOf(name, kind), AncestorPath(i), Standing(t, ANCESTORS[i]))
  {
    EntryAncestors(t, name, kind);
    AncestorNamed(name, kind, i);
    hide Split, ChangeOf, Components, Basename, TrackName, AllProper, AncestorPath;
  }

  lemma EntryDigest(t: Tracker, name: string, kind: Kind)
    requires AllProper(Components(name)) && !(WHITEOUT <= Basename(name)) && !kind.Special?
    ensures var next, c := TrackName(t, name, kind), ChangeOf(name, kind);
      && c.Entry?
      && (next.None? <==> AtBin(c) && !(IsBinary(c.node) && AllStanding(t)))
      && (next.Some? ==> SameCounts(next.value, t))
      && (next.Some? && AtBin(c) ==> IsBinary(c.node) && next.value.digest == c.node.digest && next.value.bytes == c.node.size)
      && (next.Some? && !AtBin(c) ==> next.value.digest == if Drops(c) then "" else t.digest)
      && (next.Some? && !AtBin(c) ==> next.value.bytes == if Drops(c) then 0 else t.bytes)
  {
    EntryPath(name, kind);
    assert WHITEOUT <= OPAQUE;
    var c := ChangeOf(name, kind);
    hide Split, ChangeOf, Components, Basename, Join, AllStanding;
    if c.path < BIN {
      AboveBinary(c.path);
    }
    assert |USR| < |USR_LOCAL| < |USR_LOCAL_BIN| < |BINARY|;
    assert ANCESTORS[0] == USR && ANCESTORS[1] == USR_LOCAL && ANCESTORS[2] == USR_LOCAL_BIN;
    assert |AncestorPath(0)| == 1 && |AncestorPath(1)| == 2 && |AncestorPath(2)| == 3 && |BIN| == 4;
    assert AncestorPath(0) < BIN && AncestorPath(1) < BIN && AncestorPath(2) < BIN;
  }

  lemma StandingSeen(t: Tracker)
    ensures AllStanding(t) <==> View(t).up0 && View(t).up1 && View(t).up2
  {
    hide Standing;
    assert AllStanding(t) <==> Standing(t, ANCESTORS[0]) && Standing(t, ANCESTORS[1]) && Standing(t, ANCESTORS[2]);
  }

  lemma EntrySees(t: Tracker, name: string, kind: Kind)
    requires AllProper(Components(name)) && !(WHITEOUT <= Basename(name)) && !kind.Special?
    ensures SeenStep(t, TrackName(t, name, kind), ChangeOf(name, kind))
  {
    hide Split, ChangeOf, UpAfter, Standing, Drops, TrackName, AllProper, Components, Basename, AllStanding, IsBinary;
    EntryDigest(t, name, kind);
    StandingSeen(t);
    if TrackName(t, name, kind).Some? {
      EntryStands(t, name, kind, 0);
      EntryStands(t, name, kind, 1);
      EntryStands(t, name, kind, 2);
    }
  }

  /** One member of the scan, seen through its change alone. */
  lemma NameSees(t: Tracker, name: string, kind: Kind)
    requires AllProper(Components(name)) && !kind.Special?
    ensures SeenStep(t, TrackName(t, name, kind), ChangeOf(name, kind))
  {
    if Basename(name) == OPAQUE {
      OpaqueSees(t, name, kind);
    } else if WHITEOUT <= Basename(name) {
      WhiteoutSees(t, name, kind);
    } else {
      EntrySees(t, name, kind);
    }
  }

  lemma MemberSees(t: Tracker, m: Member)
    ensures TrackMember(t, m).Some? <==> Countable(t, m) && See(View(t), Meaning(m)).Some?
    ensures TrackMember(t, m).Some? ==>
      View(TrackMember(t, m).value) == See(View(t), Meaning(m)).value && SameCounts(TrackMember(t, m).value, Counted(t, m))
  {
    TrackCounted(t, m);
    assert View(Counted(t, m)) == View(t);
    hide MemberAllowed, NameOf, TrackName, TrackMember, See, ChangeOf, View;
    if Countable(t, m) {
      AcceptedName(m);
      NameSees(Counted(t, m), NameOf(m.raw), m.kind);
    }
  }

  // ----- a whole list -----

  function SeeAll(v: Seen, cs: seq<Change>): Option<Seen>
    decreases |cs|
  {
    if cs == [] then Some(v)
    else
      var next := See(v, cs[0]);
      if next.None? then None else SeeAll(next.value, cs[1..])
  }

  predicate CountableAll(t: Tracker, ms: seq<Member>)
    decreases |ms|
  {
    ms == [] || (Countable(t, ms[0]) && CountableAll(Counted(t, ms[0]), ms[1..]))
  }

  lemma CountsDecide(t: Tracker, u: Tracker, m: Member)
    requires SameCounts(t, u)
    ensures Countable(t, m) <==> Countable(u, m)
    ensures SameCounts(Counted(t, m), Counted(u, m))
  {
    hide MemberAllowed, NameOf;
  }

  lemma {:induction false} CountsDecideAll(t: Tracker, u: Tracker, ms: seq<Member>)
    requires SameCounts(t, u)
    ensures CountableAll(t, ms) <==> CountableAll(u, ms)
    decreases |ms|
  {
    hide Countable, Counted, SameCounts;
    if ms != [] {
      CountsDecide(t, u, ms[0]);
      CountsDecideAll(Counted(t, ms[0]), Counted(u, ms[0]), ms[1..]);
    }
  }

  /** A list of members is accepted exactly if the counts allow it and the changes are not refused. */
  lemma {:induction false} MembersSee(t: Tracker, ms: seq<Member>)
    ensures TrackMembers(t, ms).Some? <==> CountableAll(t, ms) && SeeAll(View(t), ChangesOf(ms)).Some?
    ensures TrackMembers(t, ms).Some? ==> View(TrackMembers(t, ms).value) == SeeAll(View(t), ChangesOf(ms)).value
    decreases |ms|
  {
    hide Countable, Counted, SameCounts, TrackMember, See, View, ChangeOf, NameOf;
    if ms != [] {
      MemberSees(t, ms[0]);
      assert ChangesOf(ms)[0] == Meaning(ms[0]) && ChangesOf(ms)[1..] == ChangesOf(ms[1..]);
      if TrackMember(t, ms[0]).Some? {
        var next := TrackMember(t, ms[0]).value;
        CountsDecideAll(next, Counted(t, ms[0]), ms[1..]);
        MembersSee(next, ms[1..]);
      }
    }
  }

  // ----- trackers that no later member can tell apart -----

  predicate Alike(t: Tracker, u: Tracker) { View(t) == View(u) && SameCounts(t, u) }

  predicate BothAlike(x: Option<Tracker>, y: Option<Tracker>) {
    (x.Some? <==> y.Some?) && (x.Some? && y.Some? ==> Alike(x.value, y.value))
  }

  lemma AlikeMember(t: Tracker, u: Tracker, m: Member)
    requires Alike(t, u)
    ensures BothAlike(TrackMember(t, m), TrackMember(u, m))
  {
    hide Countable, Counted, TrackMember, See, View, Meaning;
    MemberSees(t, m);
    MemberSees(u, m);
    CountsDecide(t, u, m);
  }

  lemma {:induction false} AlikeMembers(t: Tracker, u: Tracker, ms: seq<Member>)
    requires Alike(t, u)
    ensures BothAlike(TrackMembers(t, ms), TrackMembers(u, ms))
    decreases |ms|
  {
    hide TrackMember, Alike;
    if ms != [] {
      AlikeMember(t, u, ms[0]);
      if TrackMember(t, ms[0]).Some? {
        AlikeMembers(TrackMember(t, ms[0]).value, TrackMember(u, ms[0]).value, ms[1..]);
      }
    }
  }

  lemma {:induction false} AlikeLayers(t: Tracker, u: Tracker, layers: seq<seq<Member>>)
    requires Alike(t, u)
    ensures BothAlike(TrackLayers(t, layers), TrackLayers(u, layers))
    decreases |layers|
  {
    if layers != [] {
      var x, y := t.(names := {}), u.(names := {});
      assert Alike(x, y);
      hide TrackMembers, Alike;
      AlikeMembers(x, y, layers[0]);
      if TrackMembers(x, layers[0]).Some? {
        AlikeLayers(TrackMembers(x, layers[0]).value, TrackMembers(y, layers[0]).value, layers[1..]);
      }
    }
  }
}
