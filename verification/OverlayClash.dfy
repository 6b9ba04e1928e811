/**
 Exactly when exchanging two unrelated members of a layer can be noticed.  A
 whiteout without a name acts on its whole directory in the tracker, so it can get
 in the way of members it has nothing to do with.
 */
module OverlayClash {
  import opened Prelude
  import opened Paths
  import opened Overlay
  import opened OverlayScan
  import opened OverlaySwap
  import opened OverlayView

  // ----- which unrelated members get in each other's way -----

  /**
   `n` is a whiteout without a name above the binary, and `b` does something below
   `n`'s directory that the tracker then forgets or that comes too late: it puts a
   directory at an ancestor, or a binary in place.
   */
  predicate Clash(n: Change, b: Change) {
    Reaches(n) && n.dir < Site(b) && Site(b) <= BIN &&
    match b
    case Whiteout(_, _) => false
    case Opaque(dir) => dir < BIN
    case Entry(path, node) => if path == BIN then IsBinary(node) else node.DirNode?
  }

  predicate Clashing(a: Change, b: Change) { Clash(a, b) || Clash(b, a) }

  predicate Raises(c: Change, q: Path) { Site(c) == q && (c.Opaque? || (c.Entry? && c.node.DirNode?)) }

  predicate Lowers(c: Change, q: Path) { Hides(c, q) || (c.Entry? && c.path == q && !c.node.DirNode?) }

  lemma UpAfterIs(c: Change, q: Path, was: bool)
    ensures UpAfter(c, q, was) <==> Raises(c, q) || (!Lowers(c, q) && was)
    ensures Raises(c, q) ==> !Lowers(c, q)
  {
  }

  /** Nothing lowers an ancestor from elsewhere but a nameless whiteout. */
  lemma LoweredFrom(c: Change, q: Path)
    requires Lowers(c, q)
    ensures Site(c) <= q || (Nameless(c) && c.dir != [] && c.dir < q)
  {
  }

  lemma RaiseOrLower(a: Change, b: Change, i: nat)
    requires i < 3 && Unrelated(a, b) && Raises(a, AncestorPath(i)) && Lowers(b, AncestorPath(i))
    ensures Clash(b, a)
  {
    LoweredFrom(b, AncestorPath(i));
    assert AncestorPath(i) < BIN;
  }

  lemma UpCommutes(a: Change, b: Change, i: nat, was: bool)
    requires i < 3 && Unrelated(a, b) && !Clashing(a, b)
    ensures var q := AncestorPath(i); UpAfter(b, q, UpAfter(a, q, was)) == UpAfter(a, q, UpAfter(b, q, was))
  {
    var q := AncestorPath(i);
    UpAfterIs(a, q, was);
    UpAfterIs(b, q, was);
    UpAfterIs(a, q, UpAfter(b, q, was));
    UpAfterIs(b, q, UpAfter(a, q, was));
    hide UpAfter, Raises, Lowers, Unrelated, Clash;
    if Raises(a, q) && Lowers(b, q) {
      RaiseOrLower(a, b, i);
    }
    if Raises(b, q) && Lowers(a, q) {
      RaiseOrLower(b, a, i);
    }
  }

  /** Beside an entry at the binary path an unrelated change that does not clash does nothing the tracker sees. */
  lemma InertBesideBinary(v: Seen, a: Change, b: Change)
    requires AtBin(a) && IsBinary(a.node) && Unrelated(a, b) && !Clash(b, a)
    ensures See(v, b) == Some(v)
  {
    if Hides(b, BIN) {
      LoweredFrom(b, BIN);
    }
    assert !Drops(b);
    InertAt(a, b, 0, v.up0);
    InertAt(a, b, 1, v.up1);
    InertAt(a, b, 2, v.up2);
    hide UpAfter, Drops, Clash;
  }

  lemma InertAt(a: Change, b: Change, i: nat, was: bool)
    requires i < 3 && AtBin(a) && IsBinary(a.node) && Unrelated(a, b) && !Clash(b, a)
    ensures UpAfter(b, AncestorPath(i), was) == was
  {
    var q := AncestorPath(i);
    UpAfterIs(b, q, was);
    assert q < BIN;
    assert Site(b) <= q ==> Site(b) <= BIN;
    if Lowers(b, q) {
      LoweredFrom(b, q);
    }
  }

  function Then(v: Seen, a: Change, b: Change): Option<Seen> {
    var next := See(v, a); if next.None? then None else See(next.value, b)
  }

  lemma SeeCommutes(v: Seen, a: Change, b: Change)
    requires Unrelated(a, b) && !Clashing(a, b)
    ensures Then(v, a, b) == Then(v, b, a)
  {
    assert AtBin(a) && AtBin(b) ==> Site(a) == Site(b);
    hide Then, Clash;
    if AtBin(a) {
      BinaryCommutes(v, a, b);
    } else if AtBin(b) {
      BinaryCommutes(v, b, a);
    } else {
      PlainCommutes(v, a, b);
    }
  }

  lemma PlainCommutes(v: Seen, a: Change, b: Change)
    requires Unrelated(a, b) && !Clashing(a, b) && !AtBin(a) && !AtBin(b)
    ensures Then(v, a, b) == Then(v, b, a)
  {
    hide UpAfter, Drops, Clashing, Unrelated, AtBin, AncestorPath;
    UpCommutes(a, b, 0, v.up0);
    UpCommutes(a, b, 1, v.up1);
    UpCommutes(a, b, 2, v.up2);
  }

  lemma BinaryCommutes(v: Seen, a: Change, b: Change)
    requires AtBin(a) && !AtBin(b) && Unrelated(a, b) && !Clash(b, a)
    ensures Then(v, a, b) == Then(v, b, a)
  {
    if IsBinary(a.node) {
      InertBesideBinary(v, a, b);
      if See(v, a).Some? {
        InertBesideBinary(See(v, a).value, a, b);
      }
    }
    hide UpAfter, Drops, Clash, Unrelated;
  }

  // ----- exchanging two members of a layer -----

  lemma PairSees(t: Tracker, a: Member, b: Member)
    ensures TrackMembers(t, [a, b]).Some? <==>
      Countable(t, a) && Countable(Counted(t, a), b) && Then(View(t), Meaning(a), Meaning(b)).Some?
    ensures TrackMembers(t, [a, b]).Some? ==>
      && View(TrackMembers(t, [a, b]).value) == Then(View(t), Meaning(a), Meaning(b)).value
      && SameCounts(TrackMembers(t, [a, b]).value, Counted(Counted(t, a), b))
  {
    assert [a, b][1..] == [b] && [b][1..] == [];
    hide Countable, Counted, TrackMember, See, View, Meaning;
    MemberSees(t, a);
    if TrackMember(t, a).Some? {
      var next := TrackMember(t, a).value;
      assert TrackMembers(next, [b]) == TrackMember(next, b);
      MemberSees(next, b);
      CountsDecide(next, Counted(t, a), b);
    }
  }

  /** Two members fit in either order or in neither. */
  lemma CountableBoth(t: Tracker, a: Member, b: Member)
    ensures Countable(t, a) && Countable(Counted(t, a), b) <==> Countable(t, b) && Countable(Counted(t, b), a)
    ensures SameCounts(Counted(Counted(t, a), b), Counted(Counted(t, b), a))
  {
    hide MemberAllowed, NameOf;
    assert t.names + {NameOf(a.raw)} + {NameOf(b.raw)} == t.names + {NameOf(b.raw)} + {NameOf(a.raw)};
  }

  /** The member passes its own checks, wherever it stands. */
  predicate Usable(m: Member) { Countable(FRESH, m) }

  /** The exchange can be noticed: both members are usable, and one gets in the way of the other. */
  predicate Noticeable(a: Member, b: Member) { Usable(a) && Usable(b) && Clashing(Meaning(a), Meaning(b)) }

  lemma UnusableNever(t: Tracker, m: Member)
    requires !Usable(m) && 0 <= t.expanded
    ensures !Countable(t, m)
  {
    hide MemberAllowed, NameOf;
  }

  lemma SwapAlike(t: Tracker, a: Member, b: Member)
    requires Unrelated(Meaning(a), Meaning(b)) && !Noticeable(a, b) && 0 <= t.expanded
    ensures BothAlike(TrackMembers(t, [a, b]), TrackMembers(t, [b, a]))
  {
    hide Meaning, Unrelated, Clashing, Countable, Counted, View, Then, TrackMembers;
    PairSees(t, a, b);
    PairSees(t, b, a);
    CountableBoth(t, a, b);
    if !Usable(a) {
      UnusableNever(t, a);
    } else if !Usable(b) {
      UnusableNever(t, b);
    } else {
      SeeCommutes(View(t), Meaning(a), Meaning(b));
    }
  }

  lemma {:induction false} TrackConcat(t: Tracker, x: seq<Member>, y: seq<Member>)
    ensures TrackMembers(t, x + y) == var u := TrackMembers(t, x); if u.None? then None else TrackMembers(u.value, y)
    decreases |x|
  {
    hide TrackMember;
    if x == [] {
      assert x + y == y;
    } else {
      assert (x + y)[1..] == x[1..] + y && (x + y)[0] == x[0];
      if TrackMember(t, x[0]).Some? {
        TrackConcat(TrackMember(t, x[0]).value, x[1..], y);
      }
    }
  }

  lemma {:induction false} ExpandedGrows(t: Tracker, ms: seq<Member>)
    requires 0 <= t.expanded && TrackMembers(t, ms).Some?
    ensures 0 <= TrackMembers(t, ms).value.expanded
    decreases |ms|
  {
    if ms != [] {
      MemberSees(t, ms[0]);
      assert 0 <= TrackMember(t, ms[0]).value.expanded;
      hide TrackMember;
      ExpandedGrows(TrackMember(t, ms[0]).value, ms[1..]);
    }
  }

  lemma SwapIn(t: Tracker, pre: seq<Member>, a: Member, b: Member, post: seq<Member>)
    requires Unrelated(Meaning(a), Meaning(b)) && !Noticeable(a, b) && 0 <= t.expanded
    ensures BothAlike(TrackMembers(t, pre + [a, b] + post), TrackMembers(t, pre + [b, a] + post))
  {
    hide TrackMembers, Unrelated, Meaning, Noticeable, Alike;
    TrackConcat(t, pre + [a, b], post);
    TrackConcat(t, pre + [b, a], post);
    TrackConcat(t, pre, [a, b]);
    TrackConcat(t, pre, [b, a]);
    if TrackMembers(t, pre).Some? {
      var u := TrackMembers(t, pre).value;
      ExpandedGrows(t, pre);
      SwapAlike(u, a, b);
      if TrackMembers(u, [a, b]).Some? {
        AlikeMembers(TrackMembers(u, [a, b]).value, TrackMembers(u, [b, a]).value, post);
      }
    }
  }

  /** One layer exchanged for another that no tracker tells apart. */
  lemma {:induction false} SameLayer(t: Tracker, before: seq<seq<Member>>, one: seq<Member>, two: seq<Member>, after: seq<seq<Member>>)
    requires forall u: Tracker :: 0 <= u.expanded ==> BothAlike(TrackMembers(u, one), TrackMembers(u, two))
    requires 0 <= t.expanded
    ensures BothAlike(TrackLayers(t, Image(before, one, after)), TrackLayers(t, Image(before, two, after)))
    decreases |before|
  {
    hide TrackMembers, Alike;
    var x, y, u := Image(before, one, after), Image(before, two, after), t.(names := {});
    if before == [] {
      assert x[0] == one && y[0] == two && x[1..] == after && y[1..] == after;
      assert BothAlike(TrackMembers(u, one), TrackMembers(u, two));
      if TrackMembers(u, one).Some? {
        AlikeLayers(TrackMembers(u, one).value, TrackMembers(u, two).value, after);
      }
    } else {
      assert x[0] == before[0] && y[0] == before[0];
      assert x[1..] == Image(before[1..], one, after) && y[1..] == Image(before[1..], two, after);
      var next := TrackMembers(u, before[0]);
      if next.Some? {
        ExpandedGrows(u, before[0]);
        SameLayer(next.value, before[1..], one, two, after);
      }
    }
  }

  lemma AlikeReport(one: seq<seq<Member>>, two: seq<seq<Member>>)
    requires BothAlike(TrackLayers(FRESH, one), TrackLayers(FRESH, two))
    ensures Report(one) == Report(two)
  {
    hide TrackLayers, Standing;
  }

  /** Exchanging unrelated members leaves verdict and report of every archive alone unless the exchange is noticeable. */
  lemma SwapSameReport(before: seq<seq<Member>>, pre: seq<Member>, a: Member, b: Member, post: seq<Member>, after: seq<seq<Member>>)
    requires Unrelated(Meaning(a), Meaning(b)) && !Noticeable(a, b)
    ensures Report(Image(before, pre + [a, b] + post, after)) == Report(Image(before, pre + [b, a] + post, after))
  {
    hide TrackMembers, TrackLayers, Unrelated, Meaning, Noticeable, Image, BothAlike;
    forall u: Tracker | 0 <= u.expanded
      ensures BothAlike(TrackMembers(u, pre + [a, b] + post), TrackMembers(u, pre + [b, a] + post))
    {
      SwapIn(u, pre, a, b, post);
    }
    SameLayer(FRESH, before, pre + [a, b] + post, pre + [b, a] + post, after);
    AlikeReport(Image(before, pre + [a, b] + post, after), Image(before, pre + [b, a] + post, after));
  }

  // ----- an archive that notices -----

  const NAMELESS: string := USR + "/" + WHITEOUT

  lemma NamelessMember()
    ensures Split(NAMELESS) == ["usr", WHITEOUT] && Basename(NAMELESS) == WHITEOUT && WHITEOUT != OPAQUE && NAMELESS != "."
    ensures forall kind :: ChangeOf(NAMELESS, kind) == Whiteout(["usr"], "")
  {
    SplitOne("usr");
    SplitOne(WHITEOUT);
    SplitSlash(USR, WHITEOUT);
    assert |WHITEOUT| == 4 && |OPAQUE| == 12 && |NAMELESS| == 8;
    hide Split;
    assert WHITEOUT[4..] == "";
  }

  lemma Ordinary(name: string, kind: Kind)
    requires AllProper(Split(name)) && 0 < |name| <= 200 && name[0] != '.' && (kind.Directory? || kind.File?)
    ensures NameOf(name) == name && MemberAllowed(Member(name, kind))
  {
    Utf8Bound(name);
    SafeNamesExactly(name);
    hide Split, SafeMemberName, Utf8Len;
  }

  function Parent(i: nat): Member
    requires i < 3
  {
    Member(ANCESTORS[i], Directory)
  }

  function Edge(size: int, hash: string): Member { Member(BINARY, File(size, hash)) }

  lemma Lengths()
    ensures |NAMELESS| == 8 && |USR_LOCAL| == 9 && |USR_LOCAL_BIN| == 13 && |BINARY| == 23 && |USR| == 3
  {
  }

  lemma ParentMeans(i: nat)
    requires i < 3
    ensures NameOf(ANCESTORS[i]) == ANCESTORS[i] && Usable(Parent(i)) && Meaning(Parent(i)) == Entry(AncestorPath(i), DirNode)
  {
    ProperPaths();
    Lengths();
    var name := ANCESTORS[i];
    assert ANCESTORS[0] == USR && ANCESTORS[1] == USR_LOCAL && ANCESTORS[2] == USR_LOCAL_BIN && name[0] == 'u';
    Ordinary(name, Directory);
    assert "usr"[0] == 'u' && "local"[0] == 'l' && "bin"[0] == 'b' && WHITEOUT[0] == '.';
    assert Basename(name)[0] != '.';
    EntryPath(name, Directory);
    hide Split, MemberAllowed, NameOf, ChangeOf, Basename;
  }

  lemma EdgeMeans(size: int, hash: string)
    requires 1 <= size <= MAX_BINARY_BYTES
    ensures NameOf(BINARY) == BINARY && Usable(Edge(size, hash)) && Meaning(Edge(size, hash)) == Entry(BIN, FileNode(DigestOf(hash), size))
  {
    ProperPaths();
    Lengths();
    assert BINARY[0] == 'u';
    Ordinary(BINARY, File(size, hash));
    assert "masi-edge"[0] == 'm' && WHITEOUT[0] == '.';
    assert Basename(BINARY)[0] != '.';
    EntryPath(BINARY, File(size, hash));
    hide Split, MemberAllowed, NameOf, ChangeOf, Basename;
  }

  /** A layer that puts two of the ancestors in place and then the binary: it gets through exactly if the third one stands. */
  function Probe(k: nat, hash: string): seq<Member>
    requires k < 3
  {
    [Parent(if k == 0 then 1 else 0), Parent(if k == 2 then 1 else 2), Edge(1, hash)]
  }

  predicate UpIs(v: Seen, k: nat)
    requires k < 3
  {
    if k == 0 then v.up0 else if k == 1 then v.up1 else v.up2
  }

  lemma SeeParent(v: Seen, i: nat)
    requires i < 3
    ensures See(v, Entry(AncestorPath(i), DirNode)) ==
      Some(if i == 0 then v.(up0 := true) else if i == 1 then v.(up1 := true) else v.(up2 := true))
  {
    assert |AncestorPath(0)| == 1 && |AncestorPath(1)| == 2 && |AncestorPath(2)| == 3 && |BIN| == 4;
  }

  lemma SeeEdge(v: Seen, digest: string, size: int)
    requires 1 <= size <= MAX_BINARY_BYTES
    ensures See(v, Entry(BIN, FileNode(digest, size))) ==
      if v.up0 && v.up1 && v.up2 then Some(v.(digest := digest, bytes := size)) else None
  {
    assert |AncestorPath(0)| == 1 && |AncestorPath(1)| == 2 && |AncestorPath(2)| == 3 && |BIN| == 4;
  }

  lemma SeeThree(v: Seen, a: Change, b: Change, c: Change)
    ensures SeeAll(v, [a, b, c]) == var u := Then(v, a, b); if u.None? then None else See(u.value, c)
  {
    hide See;
    assert [a, b, c][1..] == [b, c] && [b, c][1..] == [c] && [c][1..] == [];
    if See(v, a).Some? {
      var x := See(v, a).value;
      if See(x, b).Some? {
        assert SeeAll(See(x, b).value, [c]) == See(See(x, b).value, c);
      }
      assert SeeAll(x, [b, c]) == if See(x, b).None? then None else SeeAll(See(x, b).value, [c]);
    }
  }

  lemma ThreeChanges(a: Member, b: Member, c: Member)
    ensures ChangesOf([a, b, c]) == [Meaning(a), Meaning(b), Meaning(c)]
  {
    hide ChangeOf, NameOf;
    assert [a, b, c][1..] == [b, c];
    PairChanges(b, c);
  }

  lemma ThreeCountable(t: Tracker, a: Member, b: Member, c: Member)
    requires Usable(a) && Usable(b) && Usable(c) && t.names == {} && 0 <= t.members <= 10 && 0 <= t.expanded
    requires t.expanded + Size(a) + Size(b) + Size(c) <= MAX_LAYER_EXPANDED_BYTES
    requires NameOf(a.raw) != NameOf(b.raw) && NameOf(a.raw) != NameOf(c.raw) && NameOf(b.raw) != NameOf(c.raw)
    ensures CountableAll(t, [a, b, c])
  {
    hide MemberAllowed, NameOf;
    assert [a, b, c][1..] == [b, c] && [b, c][1..] == [c] && [c][1..] == [];
    var x := Counted(t, a);
    var y := Counted(x, b);
    assert Countable(t, a) && Countable(x, b) && Countable(y, c);
    assert CountableAll(Counted(y, c), []);
    assert CountableAll(y, [c]);
    assert CountableAll(x, [b, c]);
  }

  lemma ProbeSees(v: Seen, k: nat, i: nat, j: nat, digest: string)
    requires k < 3 && i == (if k == 0 then 1 else 0) && j == if k == 2 then 1 else 2
    ensures SeeAll(v, [Entry(AncestorPath(i), DirNode), Entry(AncestorPath(j), DirNode), Entry(BIN, FileNode(digest, 1))])
      == if UpIs(v, k) then Some(Seen(digest, 1, true, true, true)) else None
  {
    hide See, SeeAll, AncestorPath;
    var a, b, c := Entry(AncestorPath(i), DirNode), Entry(AncestorPath(j), DirNode), Entry(BIN, FileNode(digest, 1));
    SeeThree(v, a, b, c);
    SeeParent(v, i);
    SeeParent(See(v, a).value, j);
    SeeEdge(Then(v, a, b).value, digest, 1);
  }

  lemma ProbeCounts(t: Tracker, k: nat, hash: string)
    requires k < 3 && t.names == {} && 0 <= t.members <= 10 && 0 <= t.expanded <= 2 * MAX_MEMBER_BYTES
    ensures CountableAll(t, Probe(k, hash))
  {
    var i, j := if k == 0 then 1 else 0, if k == 2 then 1 else 2;
    ParentMeans(i);
    ParentMeans(j);
    EdgeMeans(1, hash);
    Lengths();
    assert ANCESTORS[0] == USR && ANCESTORS[1] == USR_LOCAL && ANCESTORS[2] == USR_LOCAL_BIN;
    hide NameOf, Meaning, Usable, CountableAll;
    ThreeCountable(t, Parent(i), Parent(j), Edge(1, hash));
  }

  lemma ProbeChanges(k: nat, hash: string)
    requires k < 3
    ensures ChangesOf(Probe(k, hash)) ==
      [Entry(AncestorPath(if k == 0 then 1 else 0), DirNode), Entry(AncestorPath(if k == 2 then 1 else 2), DirNode),
       Entry(BIN, FileNode(DigestOf(hash), 1))]
  {
    var i, j := if k == 0 then 1 else 0, if k == 2 then 1 else 2;
    ParentMeans(i);
    ParentMeans(j);
    EdgeMeans(1, hash);
    hide NameOf, Meaning, Usable, ChangesOf, AncestorPath, DigestOf;
    ThreeChanges(Parent(i), Parent(j), Edge(1, hash));
  }

  lemma ProbeReads(t: Tracker, k: nat, hash: string)
    requires k < 3 && t.names == {} && 0 <= t.members <= 10 && 0 <= t.expanded <= 2 * MAX_MEMBER_BYTES
    ensures var u := TrackMembers(t, Probe(k, hash));
      && (u.Some? <==> UpIs(View(t), k)) && (u.Some? ==> u.value.digest == DigestOf(hash) && u.value.bytes == 1)
  {
    hide Probe, View, TrackMembers, CountableAll, SeeAll, DigestOf, AncestorPath, ChangesOf;
    ProbeCounts(t, k, hash);
    ProbeChanges(k, hash);
    MembersSee(t, Probe(k, hash));
    ProbeSees(View(t), k, if k == 0 then 1 else 0, if k == 2 then 1 else 2, DigestOf(hash));
    if TrackMembers(t, Probe(k, hash)).Some? {
      ViewDigest(t, Probe(k, hash));
    }
  }

  lemma ViewDigest(t: Tracker, ms: seq<Member>)
    requires TrackMembers(t, ms).Some?
    ensures var u := TrackMembers(t, ms).value; u.digest == View(u).digest && u.bytes == View(u).bytes
  {
  }

  const START: Seen := Seen("", 0, true, true, true)

  lemma FreshView()
    ensures View(FRESH) == START && FRESH.(names := {}) == FRESH
  {
  }

  /** Where the two members of a clash are: the directory at ancestor `j`, the other at ancestor `k` or, for 3, the binary. */
  lemma ClashLevels(n: Change, b: Change) returns (j: nat, k: nat)
    requires Clash(n, b)
    ensures j < k <= 3 && n.dir == AncestorPath(j) && Site(b) == if k < 3 then AncestorPath(k) else BIN
  {
    AboveBinary(n.dir);
    j := |n.dir| - 1;
    k := |Site(b)| - 1;
    if Site(b) != BIN {
      AboveBinary(Site(b));
    }
  }

  lemma AncestorOrder(i: nat, j: nat)
    requires i < 3 && j < 3
    ensures AncestorPath(i) < AncestorPath(j) <==> i < j
    ensures AncestorPath(i) == AncestorPath(j) <==> i == j
    ensures AncestorPath(i) < BIN
  {
    assert |AncestorPath(i)| == i + 1 && |AncestorPath(j)| == j + 1;
    if i < j {
      assert AncestorPath(i) == AncestorPath(j)[..i + 1];
    }
  }

  /** A nameless whiteout at ancestor `j` forgets the digest and lowers the ancestors below it. */
  lemma SeeNameless(v: Seen, n: Change, j: nat)
    requires Reaches(n) && j < 3 && n.dir == AncestorPath(j)
    ensures See(v, n) == Some(Seen("", 0, v.up0, v.up1 && j >= 1, v.up2 && j >= 2))
  {
    AncestorOrder(j, 0);
    AncestorOrder(j, 1);
    AncestorOrder(j, 2);
    hide AncestorPath;
  }

  /** A directory or opaque marker at ancestor `k` raises it and touches nothing above it. */
  lemma SeeRaised(v: Seen, b: Change, k: nat)
    requires k < 3 && Raises(b, AncestorPath(k))
    ensures See(v, b).Some? && UpIs(See(v, b).value, k)
  {
    AncestorOrder(k, k);
    UpAfterIs(b, AncestorPath(k), if k == 0 then v.up0 else if k == 1 then v.up1 else v.up2);
    hide UpAfter, Drops;
  }

  lemma ClashAtAncestor(n: Change, b: Change, j: nat, k: nat)
    requires Clash(n, b) && j < k < 3 && n.dir == AncestorPath(j) && Site(b) == AncestorPath(k)
    ensures Then(START, n, b).Some? && UpIs(Then(START, n, b).value, k)
    ensures Then(START, b, n).Some? && !UpIs(Then(START, b, n).value, k)
  {
    assert Raises(b, AncestorPath(k)) by { AncestorOrder(k, k); }
    hide AncestorPath, Clash, Reaches, See;
    assert Reaches(n) by { ClashReaches(n, b); }
    SeeNameless(START, n, j);
    SeeRaised(See(START, n).value, b, k);
    SeeRaised(START, b, k);
    SeeNameless(See(START, b).value, n, j);
  }

  lemma ClashReaches(n: Change, b: Change)
    requires Clash(n, b)
    ensures Reaches(n)
  {
  }

  lemma SizesFit(a: Member, b: Member)
    requires Usable(a) && Usable(b)
    ensures 0 <= Size(a) <= MAX_MEMBER_BYTES && 0 <= Size(b) <= MAX_MEMBER_BYTES
    ensures NameOf(a.raw) != NameOf(b.raw) ==> Countable(FRESH, a) && Countable(Counted(FRESH, a), b)
    ensures SameCounts(Counted(Counted(FRESH, a), b), Tracker("", 0, map[], 2, Size(a) + Size(b), {NameOf(a.raw), NameOf(b.raw)}))
  {
    hide MemberAllowed, NameOf;
    assert {} + {NameOf(a.raw)} + {NameOf(b.raw)} == {NameOf(a.raw), NameOf(b.raw)};
  }

  lemma NamesDiffer(a: Member, b: Member)
    requires Unrelated(Meaning(a), Meaning(b))
    ensures NameOf(a.raw) != NameOf(b.raw)
  {
    hide NameOf, Components;
  }

  /** The first layer of two usable members, and a probe after it. */
  lemma PairThenProbe(a: Member, b: Member, k: nat, hash: string)
    requires Usable(a) && Usable(b) && Unrelated(Meaning(a), Meaning(b)) && k < 3
    ensures var u, r := Then(START, Meaning(a), Meaning(b)), Report([[a, b], Probe(k, hash)]);
      r == if u.Some? && UpIs(u.value, k) then Some((DigestOf(hash), 1)) else None
  {
    NamesDiffer(a, b);
    FreshView();
    SizesFit(a, b);
    assert DigestOf(hash)[0] == 's';
    var layers := [[a, b], Probe(k, hash)];
    assert layers[0] == [a, b] && layers[1..] == [Probe(k, hash)] && [Probe(k, hash)][1..] == [];
    hide NameOf, Meaning, Usable, Countable, Counted, See, View, TrackMembers, DigestOf, Probe, Unrelated;
    PairSees(FRESH, a, b);
    if TrackMembers(FRESH, [a, b]).Some? {
      var x := TrackMembers(FRESH, [a, b]).value;
      var y := x.(names := {});
      assert View(y) == View(x) by { ViewIgnores(x); }
      ProbeReads(y, k, hash);
      assert TrackLayers(x, [Probe(k, hash)]) == TrackMembers(y, Probe(k, hash)) by { LastLayer(x, Probe(k, hash)); }
    }
  }

  lemma ViewIgnores(t: Tracker)
    ensures View(t.(names := {})) == View(t)
  {
  }

  lemma LastLayer(t: Tracker, layer: seq<Member>)
    ensures TrackLayers(t, [layer]) == TrackMembers(t.(names := {}), layer)
  {
    hide TrackMembers;
    assert [layer][0] == layer && [layer][1..] == [];
  }

  /** The first layer alone. */
  lemma PairReport(a: Member, b: Member)
    requires Usable(a) && Usable(b) && Unrelated(Meaning(a), Meaning(b))
    ensures var u := Then(START, Meaning(a), Meaning(b));
      Report([[a, b]]) == if u.Some? && u.value.digest != "" && u.value.bytes >= 1 then Some((u.value.digest, u.value.bytes)) else None
  {
    NamesDiffer(a, b);
    FreshView();
    SizesFit(a, b);
    hide NameOf, Meaning, Usable, Countable, Counted, See, TrackMembers, Unrelated, Standing;
    PairSees(FRESH, a, b);
    LastLayer(FRESH, [a, b]);
  }

  lemma BinaryMember(b: Member)
    requires AtBin(Meaning(b)) && IsBinary(Meaning(b).node)
    ensures Meaning(b).node.digest != ""
  {
    assert forall hash :: DigestOf(hash)[0] == 's';
    hide NameOf, Components;
  }

  lemma ProbeTells(n: Member, b: Member, k: nat, hash: string)
    requires Usable(n) && Usable(b) && Unrelated(Meaning(n), Meaning(b)) && k < 3
    requires var x, y := Then(START, Meaning(n), Meaning(b)), Then(START, Meaning(b), Meaning(n));
      (x.Some? && UpIs(x.value, k)) != (y.Some? && UpIs(y.value, k))
    ensures Report([[n, b]] + [Probe(k, hash)]) != Report([[b, n]] + [Probe(k, hash)])
  {
    hide Meaning, Usable, Report, DigestOf, Then, Probe;
    assert Unrelated(Meaning(b), Meaning(n)) by { UnrelatedBoth(Meaning(n), Meaning(b)); }
    hide Unrelated;
    PairThenProbe(n, b, k, hash);
    PairThenProbe(b, n, k, hash);
    assert [[n, b]] + [Probe(k, hash)] == [[n, b], Probe(k, hash)] && [[b, n]] + [Probe(k, hash)] == [[b, n], Probe(k, hash)];
  }

  /** A clash shows in the report of some archive whose first layer holds the two members alone. */
  lemma ClashShows(n: Member, b: Member, hash: string) returns (after: seq<seq<Member>>)
    requires Usable(n) && Usable(b) && Unrelated(Meaning(n), Meaning(b)) && Clash(Meaning(n), Meaning(b))
    ensures Report([[n, b]] + after) != Report([[b, n]] + after)
  {
    hide Meaning, Usable, Unrelated, Report, DigestOf, Then, Probe, AncestorPath;
    var j, k := ClashLevels(Meaning(n), Meaning(b));
    if k < 3 {
      ClashAtAncestor(Meaning(n), Meaning(b), j, k);
      after := [Probe(k, hash)];
      ProbeTells(n, b, k, hash);
    } else {
      ClashAtBinary(Meaning(n), Meaning(b), j);
      if j < 2 {
        after := [Probe(0, hash)];
        ProbeTells(n, b, 0, hash);
      } else {
        after := [];
        UnrelatedBoth(Meaning(n), Meaning(b));
        BinaryMember(b);
        PairReport(n, b);
        PairReport(b, n);
        assert [[n, b]] + after == [[n, b]] && [[b, n]] + after == [[b, n]];
      }
    }
  }

  lemma ClashAtBinary(n: Change, b: Change, j: nat)
    requires Clash(n, b) && j < 3 && n.dir == AncestorPath(j) && Site(b) == BIN
    ensures AtBin(b) && IsBinary(b.node)
    ensures Then(START, b, n) == Some(Seen("", 0, true, j >= 1, j >= 2))
    ensures Then(START, n, b) == if j < 2 then None else Some(Seen(b.node.digest, b.node.size, true, true, true))
  {
    assert AtBin(b) && IsBinary(b.node) && b == Entry(BIN, FileNode(b.node.digest, b.node.size));
    ClashReaches(n, b);
    hide AncestorPath, Clash, Reaches, See;
    SeeNameless(START, n, j);
    SeeEdge(See(START, n).value, b.node.digest, b.node.size);
    SeeEdge(START, b.node.digest, b.node.size);
    SeeNameless(See(START, b).value, n, j);
  }

  /** The exchange leaves this archive's report alone. */
  ghost predicate SameEitherWay(before: seq<seq<Member>>, pre: seq<Member>, a: Member, b: Member, post: seq<Member>, after: seq<seq<Member>>) {
    Report(Image(before, pre + [a, b] + post, after)) == Report(Image(before, pre + [b, a] + post, after))
  }

  ghost predicate NeverMatters(a: Member, b: Member) {
    forall before, pre, post, after :: SameEitherWay(before, pre, a, b, post, after)
  }

  /** Exchanging two unrelated members leaves the report of every archive alone if and only if the exchange is not noticeable. */
  lemma SwapExactly(a: Member, b: Member)
    requires Unrelated(Meaning(a), Meaning(b))
    ensures NeverMatters(a, b) <==> !Noticeable(a, b)
  {
    hide Report, Meaning, Unrelated, Usable, Clash;
    if !Noticeable(a, b) {
      forall before, pre, post, after
        ensures SameEitherWay(before, pre, a, b, post, after)
      {
        SwapSameReport(before, pre, a, b, post, after);
      }
    } else if Clash(Meaning(a), Meaning(b)) {
      var after := ClashShows(a, b, "");
      Noticed(a, b, after);
    } else {
      assert Unrelated(Meaning(b), Meaning(a)) by { UnrelatedBoth(Meaning(a), Meaning(b)); }
      var after := ClashShows(b, a, "");
      Noticed(a, b, after);
    }
  }

  lemma UnrelatedBoth(a: Change, b: Change)
    requires Unrelated(a, b)
    ensures Unrelated(b, a)
  {
  }

  lemma Noticed(a: Member, b: Member, after: seq<seq<Member>>)
    requires Report([[a, b]] + after) != Report([[b, a]] + after)
    ensures !NeverMatters(a, b)
  {
    hide Report;
    assert [] + [a, b] + [] == [a, b] && [] + [b, a] + [] == [b, a];
    assert Image([], [a, b], after) == [[a, b]] + after && Image([], [b, a], after) == [[b, a]] + after;
    assert !SameEitherWay([], [], a, b, [], after);
  }

  // ----- a nameless whiteout is not where it seems -----

  lemma NamelessMeans(hash: string)
    ensures var n := Member(NAMELESS, File(0, hash));
      Usable(n) && Meaning(n) == Whiteout(["usr"], "") && Reaches(Meaning(n)) && NameOf(NAMELESS) == NAMELESS
  {
    NamelessMember();
    Lengths();
    assert NAMELESS[0] == 'u' && Proper("usr") && Proper(WHITEOUT) by { assert |"usr"| == 3 && |WHITEOUT| == 4; }
    Ordinary(NAMELESS, File(0, hash));
    hide Split, MemberAllowed, NameOf, ChangeOf, Basename;
    assert ["usr"] == AncestorPath(0) && AncestorPath(0) < BIN;
  }

  lemma NamelessApart(n: Change, d: Change)
    requires n == Whiteout(["usr"], "") && d == Entry(AncestorPath(1), DirNode)
    ensures Unrelated(n, d) && Nameless(n) && n.dir == AncestorPath(0)
  {
    var p := AncestorPath(1);
    assert ["usr"] == AncestorPath(0);
    assert ["usr"] + [""] == ["usr", ""] && p[1] == "local" && |"local"| == 5 && |p| == 2;
  }

  lemma NamelessClashes(n: Member, d: Member, hash: string)
    requires n == Member(NAMELESS, File(0, hash)) && d == Parent(1)
    ensures Unrelated(Meaning(n), Meaning(d)) && Nameless(Meaning(n)) && Noticeable(n, d) && Meaning(n).dir == AncestorPath(0)
  {
    hide Meaning, Usable, NameOf, AncestorPath, Unrelated;
    NamelessMeans(hash);
    ParentMeans(1);
    AncestorOrder(0, 1);
    AncestorOrder(1, 1);
    NamelessApart(Meaning(n), Meaning(d));
  }

  predicate AllDiffer(a: string, b: string, c: string, d: string) { a != b && a != c && a != d && b != c && b != d && c != d }

  /** Two pairs in one layer. */
  lemma PairOfPairs(a: Member, b: Member, c: Member, d: Member)
    requires Usable(a) && Usable(b) && Usable(c) && Usable(d)
    requires AllDiffer(NameOf(a.raw), NameOf(b.raw), NameOf(c.raw), NameOf(d.raw))
    ensures var x := Then(START, Meaning(a), Meaning(b));
      var y := if x.None? then None else Then(x.value, Meaning(c), Meaning(d));
      Report([[a, b, c, d]]) == if y.Some? && y.value.digest != "" && y.value.bytes >= 1 then Some((y.value.digest, y.value.bytes)) else None
  {
    FreshView();
    SizesFit(a, b);
    SizesFit(c, d);
    hide NameOf, Meaning, See, TrackMembers, Standing, MemberAllowed;
    LastLayer(FRESH, [a, b, c, d]);
    assert [a, b] + [c, d] == [a, b, c, d];
    TrackConcat(FRESH, [a, b], [c, d]);
    PairSees(FRESH, a, b);
    if TrackMembers(FRESH, [a, b]).Some? {
      PairSees(TrackMembers(FRESH, [a, b]).value, c, d);
    }
  }

  /**
   The smallest case: "usr/.wh." and the directory "usr/local" are unrelated, yet an
   archive is accepted with the one first and refused with the other first.
   */
  lemma NamelessOrderMatters(size: int, hash: string)
    requires 1 <= size <= MAX_BINARY_BYTES
    ensures var n, d, e, f := Member(NAMELESS, File(0, hash)), Parent(1), Parent(2), Edge(size, hash);
      && Unrelated(Meaning(n), Meaning(d)) && Nameless(Meaning(n)) && Noticeable(n, d)
      && Report([[n, d, e, f]]) == Some((DigestOf(hash), size)) && Report([[d, n, e, f]]) == None
  {
    var n, d, e, f := Member(NAMELESS, File(0, hash)), Parent(1), Parent(2), Edge(size, hash);
    hide Meaning, Usable, Unrelated, Report, NameOf, Then, DigestOf, AncestorPath, Reaches, Noticeable, Parent, Edge, Nameless;
    NamelessClashes(n, d, hash);
    NamelessFour(n, d, e, f, size, hash);
    NamelessViews(Meaning(n), DigestOf(hash), size);
    PairOfPairs(n, d, e, f);
    PairOfPairs(d, n, e, f);
  }

  lemma NamelessFour(n: Member, d: Member, e: Member, f: Member, size: int, hash: string)
    requires n == Member(NAMELESS, File(0, hash)) && d == Parent(1) && e == Parent(2) && f == Edge(size, hash)
    requires 1 <= size <= MAX_BINARY_BYTES
    ensures Usable(n) && Usable(d) && Usable(e) && Usable(f)
    ensures AllDiffer(NameOf(n.raw), NameOf(d.raw), NameOf(e.raw), NameOf(f.raw))
    ensures AllDiffer(NameOf(d.raw), NameOf(n.raw), NameOf(e.raw), NameOf(f.raw))
    ensures Reaches(Meaning(n)) && Meaning(d) == Entry(AncestorPath(1), DirNode) && Meaning(e) == Entry(AncestorPath(2), DirNode)
    ensures Meaning(f) == Entry(BIN, FileNode(DigestOf(hash), size)) && DigestOf(hash) != ""
  {
    hide *;
    DigestNonEmpty(hash);
    NamelessNames(n, d, e, f, size, hash);
    NamelessMeans(hash);
    ParentMeans(1);
    ParentMeans(2);
    EdgeMeans(size, hash);
  }

  lemma DigestNonEmpty(hash: string)
    ensures DigestOf(hash) != ""
  {
    assert DigestOf(hash)[0] == 's';
  }

  lemma NamelessNames(n: Member, d: Member, e: Member, f: Member, size: int, hash: string)
    requires n == Member(NAMELESS, File(0, hash)) && d == Parent(1) && e == Parent(2) && f == Edge(size, hash)
    requires 1 <= size <= MAX_BINARY_BYTES
    ensures AllDiffer(NameOf(n.raw), NameOf(d.raw), NameOf(e.raw), NameOf(f.raw))
    ensures AllDiffer(NameOf(d.raw), NameOf(n.raw), NameOf(e.raw), NameOf(f.raw))
  {
    hide Meaning, Usable, NameOf, AncestorPath, Reaches, DigestOf;
    NamelessMeans(hash);
    ParentMeans(1);
    ParentMeans(2);
    EdgeMeans(size, hash);
    AncestorLengths();
  }

  lemma AncestorLengths()
    ensures |NAMELESS| == 8 && |ANCESTORS[1]| == 9 && |ANCESTORS[2]| == 13 && |BINARY| == 23
  {
    Lengths();
  }

  /** The two orders as the tracker sees them. */
  lemma NamelessViews(n: Change, digest: string, size: int)
    requires Reaches(n) && n.dir == AncestorPath(0) && 1 <= size <= MAX_BINARY_BYTES
    ensures var d, e, f := Entry(AncestorPath(1), DirNode), Entry(AncestorPath(2), DirNode), Entry(BIN, FileNode(digest, size));
      && Then(START, n, d).Some? && Then(Then(START, n, d).value, e, f) == Some(Seen(digest, size, true, true, true))
      && Then(START, d, n).Some? && Then(Then(START, d, n).value, e, f) == None
  {
    var d, e, f := Entry(AncestorPath(1), DirNode), Entry(AncestorPath(2), DirNode), Entry(BIN, FileNode(digest, size));
    hide See, AncestorPath, Reaches;
    SeeNameless(START, n, 0);
    SeeParent(See(START, n).value, 1);
    SeeParent(START, 1);
    SeeNameless(See(START, d).value, n, 0);
    var x, y := Then(START, n, d).value, Then(START, d, n).value;
    SeeParent(x, 2);
    SeeParent(y, 2);
    SeeEdge(See(x, e).value, digest, size);
    SeeEdge(See(y, e).value, digest, size);
  }
}
