/**
 Members that have nothing to do with each other: exchanging two of them inside a
 layer changes no path of the filesystem, nor the report where nothing is overlooked.
 */
module OverlaySwap {
  import opened Prelude
  import opened Paths
  import opened Overlay
  import opened OverlayScan
  import opened OverlayOrder

  function Site(c: Change): Path {
    match c case Opaque(dir) => dir case Whiteout(dir, name) => dir + [name] case Entry(path, _) => path
  }

  /** Neither member is at, above or below the other. */
  predicate Unrelated(a: Change, b: Change) { !(Site(a) <= Site(b)) && !(Site(b) <= Site(a)) }

  lemma PrefixesCompare(x: Path, y: Path, q: Path)
    requires x <= q && y <= q
    ensures x <= y || y <= x
  {
    if |x| <= |y| {
      assert x == y[..|x|];
    } else {
      assert y == x[..|y|];
    }
  }

  /** Away from its site a member only makes sure of parent directories. */
  lemma FarFromSite(c: Change, q: Path)
    ensures !(Site(c) <= q) ==> At(c, q) == if q < Site(c) then Become(Some(DirNode)) else Keep
  {
    match c
    case Whiteout(dir, name) => assert q < dir + [name] <==> q <= dir;
    case _ =>
  }

  lemma UnrelatedAgree(a: Change, b: Change, q: Path)
    requires Unrelated(a, b)
    ensures AgreeAt(a, b, q)
  {
    var x, y := Site(a), Site(b);
    if x <= q && y <= q {
      PrefixesCompare(x, y, q);
    }
    assert !(x <= q && q <= y) && !(y <= q && q <= x);
    FarFromSite(a, q);
    FarFromSite(b, q);
  }

  // ----- the filesystem -----

  lemma {:induction false} LastConcat(a: seq<Change>, b: seq<Change>, q: Path)
    ensures LastActing(a + b, q) == if LastActing(b, q).Keep? then LastActing(a, q) else LastActing(b, q)
  {
    hide At;
    if a == [] {
      assert a + b == b;
    } else {
      LastConcat(a[1..], b, q);
      assert (a + b)[1..] == a[1..] + b && (a + b)[0] == a[0];
    }
  }

  lemma LastOfPair(a: Change, b: Change, q: Path)
    ensures LastActing([a, b], q) == if At(b, q).Keep? then At(a, q) else At(b, q)
  {
    hide At;
    assert [a, b][1..] == [b] && [b][1..] == [];
    assert LastActing([b], q) == At(b, q);
  }

  /** Exchanging two neighbours that are unrelated changes no path of the filesystem. */
  lemma SwapUnrelated(fs: Fs, pre: seq<Change>, a: Change, b: Change, post: seq<Change>, q: Path)
    requires Unrelated(a, b) && q != []
    ensures Look(ApplyAll(fs, pre + [a, b] + post), q) == Look(ApplyAll(fs, pre + [b, a] + post), q)
  {
    ApplyAllAt(fs, pre + [a, b] + post, q);
    ApplyAllAt(fs, pre + [b, a] + post, q);
    UnrelatedAgree(a, b, q);
    hide At, Unrelated, LastActing, ApplyAll;
    LastOfPair(a, b, q);
    LastOfPair(b, a, q);
    LastConcat(pre + [a, b], post, q);
    LastConcat(pre + [b, a], post, q);
    LastConcat(pre, [a, b], q);
    LastConcat(pre, [b, a], q);
  }

  /** Nor does it change whether something is overlooked after the last write of the binary. */
  lemma SwapClean(pre: seq<Change>, a: Change, b: Change, post: seq<Change>, clean: bool)
    requires Unrelated(a, b)
    ensures CleanAfter(clean, pre + [a, b] + post) == CleanAfter(clean, pre + [b, a] + post)
  {
    var mid := CleanAfter(clean, pre);
    assert Clean(Clean(mid, a), b) == Clean(Clean(mid, b), a) by {
      OverlookedSite(a);
      OverlookedSite(b);
    }
    hide Clean, Unrelated;
    PairClean(mid, a, b);
    PairClean(mid, b, a);
    RunsConcat(map[], clean, pre + [a, b], post);
    RunsConcat(map[], clean, pre + [b, a], post);
    RunsConcat(map[], clean, pre, [a, b]);
    RunsConcat(map[], clean, pre, [b, a]);
  }

  lemma PairClean(clean: bool, a: Change, b: Change)
    ensures CleanAfter(clean, [a, b]) == Clean(Clean(clean, a), b)
  {
    hide Clean;
    assert [a, b][1..] == [b] && [b][1..] == [];
    assert CleanAfter(Clean(clean, a), [b]) == Clean(Clean(clean, a), b);
  }

  lemma OverlookedSite(c: Change)
    ensures Overlooked(c) ==> Site(c) == [] || BIN <= Site(c)
  {
    assert c.Whiteout? && BIN <= c.dir ==> BIN <= c.dir + [c.name];
  }

  // ----- a member of some layer -----

  function Image(before: seq<seq<Member>>, layer: seq<Member>, after: seq<seq<Member>>): seq<seq<Member>> {
    before + [layer] + after
  }

  function Meaning(m: Member): Change { ChangeOf(NameOf(m.raw), m.kind) }

  lemma {:induction false} MembersConcat(a: seq<seq<Member>>, b: seq<seq<Member>>)
    ensures AllMembers(a + b) == AllMembers(a) + AllMembers(b)
  {
    if a == [] {
      assert a + b == b;
    } else {
      MembersConcat(a[1..], b);
      assert (a + b)[1..] == a[1..] + b && (a + b)[0] == a[0];
      Regroup(a[0], AllMembers(a[1..]), AllMembers(b));
    }
  }

  lemma PairChanges(a: Member, b: Member)
    ensures ChangesOf([a, b]) == [Meaning(a), Meaning(b)]
  {
    hide ChangeOf, NameOf;
    assert [a, b][1..] == [b] && [b][1..] == [];
    assert ChangesOf([b]) == [Meaning(b)];
  }

  /** The changes around a pair of neighbours, wherever in the image they are. */
  lemma ImageChanges(before: seq<seq<Member>>, pre: seq<Member>, a: Member, b: Member, post: seq<Member>, after: seq<seq<Member>>)
    ensures ChangesOf(AllMembers(Image(before, pre + [a, b] + post, after)))
      == ChangesOf(AllMembers(before) + pre) + [Meaning(a), Meaning(b)] + ChangesOf(post + AllMembers(after))
  {
    hide ChangesOf, AllMembers, ChangeOf, NameOf;
    var layer := pre + [a, b] + post;
    MembersConcat(before + [layer], after);
    MembersConcat(before, [layer]);
    OneLayer(layer);
    PairChanges(a, b);
    var x, y := AllMembers(before) + pre, post + AllMembers(after);
    assert AllMembers(before) + layer + AllMembers(after) == x + [a, b] + y;
    ChangesConcat(x + [a, b], y);
    ChangesConcat(x, [a, b]);
  }

  lemma OneLayer(layer: seq<Member>)
    ensures AllMembers([layer]) == layer
  {
    assert [layer][1..] == [] && layer + [] == layer;
  }

  /**
   Two accepted archives that differ by such an exchange in any one layer, of which
   one has nothing overlooked, report the same binary; the other has nothing
   overlooked either.
   */
  lemma SwapKeepsReport(before: seq<seq<Member>>, pre: seq<Member>, a: Member, b: Member, post: seq<Member>, after: seq<seq<Member>>)
    requires Unrelated(Meaning(a), Meaning(b))
    requires Report(Image(before, pre + [a, b] + post, after)).Some? && Report(Image(before, pre + [b, a] + post, after)).Some?
    requires CleanAfter(true, ChangesOf(AllMembers(Image(before, pre + [a, b] + post, after))))
    ensures CleanAfter(true, ChangesOf(AllMembers(Image(before, pre + [b, a] + post, after))))
    ensures Report(Image(before, pre + [a, b] + post, after)) == Report(Image(before, pre + [b, a] + post, after))
  {
    hide ApplyAll, ChangesOf, AllMembers, TrackLayers, CleanAfter, ChangeOf, NameOf, Unrelated, Image, Meaning;
    var one, two := Image(before, pre + [a, b] + post, after), Image(before, pre + [b, a] + post, after);
    var x, y := ChangesOf(AllMembers(before) + pre), ChangesOf(post + AllMembers(after));
    ImageChanges(before, pre, a, b, post, after);
    ImageChanges(before, pre, b, a, post, after);
    SwapClean(x, Meaning(a), Meaning(b), y, true);
    SwapUnrelated(map[], x, Meaning(a), Meaning(b), y, BIN);
    ReportExactly(one);
    ReportExactly(two);
  }
}
