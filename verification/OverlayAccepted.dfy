/**
 Exactly which archives the layer scan lets through, without the scan: ceilings on
 counts and bytes over all layers, members that stay inside the root, names that
 differ within a layer, and a binary that is only ever written under directories.
 */
module OverlayAccepted {
  import opened Prelude
  import opened Paths
  import opened Overlay
  import opened OverlayScan
  import opened OverlaySwap
  import opened OverlayView
  import opened OverlayGate

  function Total(ms: seq<Member>): int {
    if ms == [] then 0 else Size(ms[0]) + Total(ms[1..])
  }

  /** No two members of a layer name the same path. */
  predicate Distinct(ms: seq<Member>) {
    forall i, j :: 0 <= i < j < |ms| ==> Components(NameOf(ms[i].raw)) != Components(NameOf(ms[j].raw))
  }

  predicate AllDistinct(layers: seq<seq<Member>>) { forall i :: 0 <= i < |layers| ==> Distinct(layers[i]) }

  predicate Within(members: int, expanded: int, ms: seq<Member>) {
    members + |ms| <= 65_536 && expanded + Total(ms) <= 536_870_912 && AllContained(ms)
  }

  /** Exactly when one member is let through. */
  lemma LetThroughExactly(t: Tracker, m: Member)
    ensures TrackMember(t, m).Some? <==>
      && t.members < 65_536 && Contained(m) && NameOf(m.raw) !in t.names && (m.kind.File? ==> t.expanded + m.kind.size <= 536_870_912)
      && (Meaning(m).Entry? && Meaning(m).path == BIN ==>
            m.kind.File? && 1 <= m.kind.size <= 67_108_864 && forall i :: 0 <= i < 3 ==> Standing(t, ANCESTORS[i]))
  {
    MemberSees(t, m);
    AllowedExactly(m);
    hide Contained, MemberAllowed, NameOf, ChangeOf, Standing, TrackMember;
    if Contained(m) && AtBin(Meaning(m)) {
      AtBinaryNode(m);
    }
    assert View(t).up0 && View(t).up1 && View(t).up2 <==> forall i :: 0 <= i < 3 ==> Standing(t, ANCESTORS[i]) by {
      assert |ANCESTORS| == 3;
    }
  }

  lemma AtBinaryNode(m: Member)
    requires Contained(m) && AtBin(Meaning(m))
    ensures IsBinary(Meaning(m).node) <==> m.kind.File? && 1 <= m.kind.size <= 67_108_864
  {
  }

  // ----- one layer -----

  /** The paths of a layer that starts with `m`: none of the others is that of `m`. */
  lemma DistinctCons(ms: seq<Member>)
    requires ms != [] && AllContained(ms)
    ensures Distinct(ms) <==> Distinct(ms[1..]) && forall i :: 1 <= i < |ms| ==> NameOf(ms[i].raw) != NameOf(ms[0].raw)
  {
    forall i | 0 <= i < |ms|
      ensures NameOf(ms[i].raw) == NameOf(ms[0].raw) <==> Components(NameOf(ms[i].raw)) == Components(NameOf(ms[0].raw))
    {
      SafeNamesExactly(ms[0].raw);
      SafeNamesExactly(ms[i].raw);
      assert Contained(ms[0]) && Contained(ms[i]);
      NamesCanonical(ms[i].raw, ms[0].raw);
    }
    hide Contained, Components, NameOf;
    var rest := ms[1..];
    assert forall i :: 0 <= i < |rest| ==> rest[i] == ms[i + 1];
    if Distinct(rest) && forall i :: 1 <= i < |ms| ==> NameOf(ms[i].raw) != NameOf(ms[0].raw) {
      forall i, j | 0 <= i < j < |ms|
        ensures Components(NameOf(ms[i].raw)) != Components(NameOf(ms[j].raw))
      {
        if i > 0 {
          assert rest[i - 1] == ms[i] && rest[j - 1] == ms[j];
        }
      }
    }
    if Distinct(ms) {
      forall i, j | 0 <= i < j < |rest|
        ensures Components(NameOf(rest[i].raw)) != Components(NameOf(rest[j].raw))
      {
        assert rest[i] == ms[i + 1] && rest[j] == ms[j + 1];
      }
    }
  }

  lemma {:induction false} TotalNotNegative(ms: seq<Member>)
    requires AllContained(ms)
    ensures Total(ms) >= 0
  {
    if ms != [] {
      assert Contained(ms[0]);
      TotalNotNegative(ms[1..]);
    }
  }

  predicate Unseen(t: Tracker, ms: seq<Member>) { forall i :: 0 <= i < |ms| ==> NameOf(ms[i].raw) !in t.names }

  lemma UnseenCons(t: Tracker, ms: seq<Member>)
    requires ms != []
    ensures Unseen(t, ms) && (forall i :: 1 <= i < |ms| ==> NameOf(ms[i].raw) != NameOf(ms[0].raw))
      <==> NameOf(ms[0].raw) !in t.names && Unseen(Counted(t, ms[0]), ms[1..])
  {
    hide NameOf;
    var rest := ms[1..];
    assert forall i :: 1 <= i < |ms| ==> ms[i] == rest[i - 1];
    assert forall i :: 0 <= i < |rest| ==> rest[i] == ms[i + 1];
  }

  lemma ContainedCons(ms: seq<Member>)
    requires ms != []
    ensures AllContained(ms) <==> Contained(ms[0]) && AllContained(ms[1..])
  {
    hide Contained;
    assert forall i :: 1 <= i < |ms| ==> ms[i] == ms[1..][i - 1];
  }

  lemma {:induction false} CountableExactly(t: Tracker, ms: seq<Member>)
    requires t.members <= 65_536 && t.expanded <= 536_870_912
    ensures CountableAll(t, ms) <==> Within(t.members, t.expanded, ms) && Distinct(ms) && Unseen(t, ms)
    decreases |ms|
  {
    if ms != [] {
      var m, rest := ms[0], ms[1..];
      AllowedExactly(m);
      ContainedCons(ms);
      UnseenCons(t, ms);
      assert Contained(m) ==> Size(m) >= 0;
      hide Contained, MemberAllowed, NameOf, Distinct, Unseen, AllContained;
      if AllContained(ms) {
        DistinctCons(ms);
        TotalNotNegative(rest);
      }
      if Countable(t, m) {
        CountableExactly(Counted(t, m), rest);
      }
    }
  }

  lemma {:induction false} MembersCounted(t: Tracker, ms: seq<Member>)
    requires TrackMembers(t, ms).Some?
    ensures TrackMembers(t, ms).value.members == t.members + |ms| && TrackMembers(t, ms).value.expanded == t.expanded + Total(ms)
    decreases |ms|
  {
    hide TrackMember, See, View, ChangeOf, NameOf, Countable;
    if ms != [] {
      MemberSees(t, ms[0]);
      MembersCounted(TrackMember(t, ms[0]).value, ms[1..]);
    }
  }

  // ----- all layers -----

  lemma {:induction false} SeeConcat(v: Seen, a: seq<Change>, b: seq<Change>)
    ensures SeeAll(v, a + b) == if SeeAll(v, a).None? then None else SeeAll(SeeAll(v, a).value, b)
    decreases |a|
  {
    hide See;
    if a == [] {
      assert a + b == b;
    } else {
      assert (a + b)[0] == a[0] && (a + b)[1..] == a[1..] + b;
      if See(v, a[0]).Some? {
        SeeConcat(See(v, a[0]).value, a[1..], b);
      }
    }
  }

  lemma {:induction false} TotalConcat(a: seq<Member>, b: seq<Member>)
    ensures Total(a + b) == Total(a) + Total(b)
  {
    if a == [] {
      assert a + b == b;
    } else {
      assert (a + b)[1..] == a[1..] + b;
      TotalConcat(a[1..], b);
    }
  }

  lemma WithinConcat(members: int, expanded: int, a: seq<Member>, b: seq<Member>)
    ensures Within(members, expanded, a + b) <==> Within(members, expanded, a) && Within(members + |a|, expanded + Total(a), b)
  {
    TotalConcat(a, b);
    hide Contained, Total;
    assert AllContained(a + b) <==> AllContained(a) && AllContained(b) by {
      assert forall i :: 0 <= i < |a| ==> (a + b)[i] == a[i];
      assert forall i :: 0 <= i < |b| ==> (a + b)[|a| + i] == b[i];
    }
    if AllContained(b) {
      TotalNotNegative(b);
    }
  }

  lemma {:induction false} LayersExactly(t: Tracker, layers: seq<seq<Member>>)
    requires t.members <= 65_536 && t.expanded <= 536_870_912
    ensures TrackLayers(t, layers).Some? <==>
      && Within(t.members, t.expanded, AllMembers(layers)) && AllDistinct(layers)
      && SeeAll(View(t), ChangesOf(AllMembers(layers))).Some?
    decreases |layers|
  {
    hide TrackMembers, Within, SeeAll, CountableAll, ChangesOf, View;
    if layers == [] {
      NothingWithin(t);
    } else {
      var u, here, later := t.(names := {}), layers[0], AllMembers(layers[1..]);
      ResetSame(t, here);
      MembersSee(u, here);
      CountableExactly(u, here);
      WithinConcat(t.members, t.expanded, here, later);
      ChangesConcat(here, later);
      SeeConcat(View(t), ChangesOf(here), ChangesOf(later));
      DistinctLayers(layers);
      if TrackMembers(u, here).Some? {
        var next := TrackMembers(u, here).value;
        MembersCounted(u, here);
        AfterLayer(u, here);
        LayersExactly(next, layers[1..]);
      }
    }
  }

  lemma NothingWithin(t: Tracker)
    ensures Within(t.members, t.expanded, []) <==> t.members <= 65_536 && t.expanded <= 536_870_912
    ensures SeeAll(View(t), ChangesOf([])).Some?
  {
  }

  lemma ResetSame(t: Tracker, ms: seq<Member>)
    ensures View(t.(names := {})) == View(t) && Unseen(t.(names := {}), ms)
  {
  }

  lemma DistinctLayers(layers: seq<seq<Member>>)
    requires layers != []
    ensures AllDistinct(layers) <==> Distinct(layers[0]) && AllDistinct(layers[1..])
  {
    hide Distinct;
    assert forall i :: 1 <= i < |layers| ==> layers[i] == layers[1..][i - 1];
  }

  lemma AfterLayer(t: Tracker, ms: seq<Member>)
    requires Within(t.members, t.expanded, ms)
    ensures t.members + |ms| <= 65_536 && t.expanded + Total(ms) <= 536_870_912
  {
  }

  /**
   Exactly which archives the layer scan accepts: at most 65,536 members and 536,870,912
   expanded bytes over all layers, every name proper, every link inside the root, no path
   twice in a layer, and at each write of the binary a file of its size below directories.
   */
  lemma ArchiveExactly(layers: seq<seq<Member>>)
    ensures TrackLayers(FRESH, layers).Some? <==>
      var ms := AllMembers(layers);
      && |ms| <= 65_536 && Total(ms) <= 536_870_912 && AllContained(ms) && AllDistinct(layers)
      && SeeAll(Seen("", 0, true, true, true), ChangesOf(ms)).Some?
  {
    LayersExactly(FRESH, layers);
    assert View(FRESH) == Seen("", 0, true, true, true);
    hide AllContained, AllDistinct, SeeAll, Total, TrackLayers;
  }
}
