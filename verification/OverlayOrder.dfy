/**
 Order of members within a layer.  The OCI rule is that a whiteout hides what
 lower layers put there, never an entry of its own layer.  Applying members as
 they stream by agrees with it at a path exactly when the last change that acts
 there does what the last entry that acts there does; what the inspector reports
 is the binary of the OCI rule whatever the order, up to the members it overlooks.
 */
module OverlayOrder {
  import opened Prelude
  import opened Paths
  import opened Overlay
  import opened OverlayScan

  // ----- all the changes, seen at one path -----

  /** The last change that acts at `q` decides. */
  function LastActing(cs: seq<Change>, q: Path): Effect {
    if cs == [] then Keep
    else
      var later := LastActing(cs[1..], q);
      if later.Keep? then At(cs[0], q) else later
  }

  lemma {:induction false} ApplyAllAt(fs: Fs, cs: seq<Change>, q: Path)
    requires q != []
    ensures Look(ApplyAll(fs, cs), q) == Resulting(LastActing(cs, q), Look(fs, q))
    decreases |cs|
  {
    if cs != [] {
      ApplyAt(fs, cs[0], q);
      ApplyAllAt(ApplyChange(fs, cs[0]), cs[1..], q);
    }
  }

  // ----- markers first -----

  function Markers(cs: seq<Change>): seq<Change> {
    if cs == [] then [] else (if cs[0].Entry? then [] else [cs[0]]) + Markers(cs[1..])
  }

  function Entries(cs: seq<Change>): seq<Change> {
    if cs == [] then [] else (if cs[0].Entry? then [cs[0]] else []) + Entries(cs[1..])
  }

  /** One layer by the OCI rule: its markers act on the layers below, then its entries appear. */
  function OciLayer(fs: Fs, cs: seq<Change>): Fs { ApplyAll(ApplyAll(fs, Markers(cs)), Entries(cs)) }

  lemma MarkersCons(cs: seq<Change>)
    requires cs != []
    ensures Markers(cs) == (if cs[0].Entry? then [] else [cs[0]]) + Markers(cs[1..])
    ensures Entries(cs) == (if cs[0].Entry? then [cs[0]] else []) + Entries(cs[1..])
    ensures if cs[0].Entry? then Markers(cs) == Markers(cs[1..]) && Entries(cs) != [] && Entries(cs)[0] == cs[0] && Entries(cs)[1..] == Entries(cs[1..])
      else Entries(cs) == Entries(cs[1..]) && Markers(cs) != [] && Markers(cs)[0] == cs[0] && Markers(cs)[1..] == Markers(cs[1..])
  {
  }

  /** Where no entry acts the last marker decides; where one does, something acts. */
  lemma {:induction false} LastOfBoth(cs: seq<Change>, q: Path)
    ensures var e, all := LastActing(Entries(cs), q), LastActing(cs, q);
      if e.Keep? then all == LastActing(Markers(cs), q) else !all.Keep?
  {
    if cs != [] {
      LastOfBoth(cs[1..], q);
      MarkersCons(cs);
      hide At, Markers, Entries;
    }
  }

  /** At `q`, no entry of the layer acts, or the last entry to act there does what the last change does. */
  predicate EntriesDecide(cs: seq<Change>, q: Path) {
    LastActing(Entries(cs), q).Keep? || LastActing(cs, q) == LastActing(Entries(cs), q)
  }

  /** Streaming one layer gives at `q` what the OCI rule gives exactly when the entries decide there. */
  lemma StreamIsOci(fs: Fs, cs: seq<Change>, q: Path)
    requires q != []
    ensures Look(ApplyAll(fs, cs), q) == Look(OciLayer(fs, cs), q) <==> EntriesDecide(cs, q)
  {
    ApplyAllAt(fs, cs, q);
    ApplyAllAt(fs, Markers(cs), q);
    ApplyAllAt(ApplyAll(fs, Markers(cs)), Entries(cs), q);
    LastOfBoth(cs, q);
    hide LastActing, ApplyAll, Markers, Entries;
  }

  /** The marker would hide the entry, or lies inside it and needs a directory there. */
  predicate Touches(marker: Change, entry: Change) {
    entry.Entry? && entry.path != [] &&
    match marker
    case Opaque(dir) => dir < entry.path || (entry.path <= dir && !entry.node.DirNode?)
    case Whiteout(dir, name) => dir + [name] <= entry.path || (entry.path <= dir && !entry.node.DirNode?)
    case Entry(_, _) => false
  }

  predicate MarkersLead(cs: seq<Change>) {
    forall i, j :: 0 <= i < j < |cs| && cs[i].Entry? && !cs[j].Entry? ==> !Touches(cs[j], cs[i])
  }

  predicate AgreeAt(a: Change, b: Change, q: Path) { At(a, q).Keep? || At(b, q).Keep? || At(a, q) == At(b, q) }

  lemma UntouchedAgrees(marker: Change, entry: Change, q: Path)
    requires !marker.Entry? && entry.Entry? && !Touches(marker, entry) && q != []
    ensures AgreeAt(marker, entry, q)
  {
    var p := entry.path;
    match marker
    case Opaque(dir) =>
      assert dir < q && q <= p ==> dir < p;
      assert p <= q && q <= dir ==> p <= dir;
    case Whiteout(dir, name) =>
      var top := dir + [name];
      assert top <= q && q <= p ==> top <= p;
      assert p <= q && q <= dir ==> p <= dir;
  }

  lemma {:induction false} LastMarker(cs: seq<Change>, q: Path) returns (j: nat)
    requires !LastActing(Markers(cs), q).Keep?
    ensures j < |cs| && !cs[j].Entry? && At(cs[j], q) == LastActing(Markers(cs), q)
  {
    MarkersCons(cs);
    hide At, Markers;
    if LastActing(Markers(cs[1..]), q).Keep? {
      j := 0;
    } else {
      j := LastMarker(cs[1..], q);
      j := j + 1;
    }
  }

  /** When no marker follows an entry it would hide, the entries decide everywhere. */
  lemma {:induction false} LeadingMarkers(cs: seq<Change>, q: Path)
    requires MarkersLead(cs) && q != []
    ensures EntriesDecide(cs, q)
  {
    if cs != [] {
      var c, rest := cs[0], cs[1..];
      assert forall i :: 0 <= i < |rest| ==> rest[i] == cs[i + 1];
      assert MarkersLead(rest);
      LeadingMarkers(rest, q);
      LastOfBoth(rest, q);
      MarkersCons(cs);
      hide Markers, Entries;
      if c.Entry? && !LastActing(Markers(rest), q).Keep? {
        var j := LastMarker(rest, q);
        assert !Touches(cs[j + 1], cs[0]);
        UntouchedAgrees(rest[j], c, q);
      }
      hide At;
    }
  }

  /** An entry followed by a whiteout of itself: the entries do not decide, and the two filesystems differ. */
  lemma LateWhiteoutDiffers(fs: Fs, dir: Path, name: string, node: Node)
    ensures var cs := [Entry(dir + [name], node), Whiteout(dir, name)];
      Look(ApplyAll(fs, cs), dir + [name]) == None && Look(OciLayer(fs, cs), dir + [name]) == Some(node)
  {
    var q := dir + [name];
    var cs := [Entry(q, node), Whiteout(dir, name)];
    ApplyAllAt(fs, cs, q);
    assert cs[1..] == [Whiteout(dir, name)] && cs[1..][1..] == [];
    MarkersCons(cs);
    MarkersCons(cs[1..]);
    assert Markers(cs) == [cs[1]] && Entries(cs) == [cs[0]];
    ApplyAllAt(ApplyAll(fs, [cs[1]]), [cs[0]], q);
    assert [cs[0]][1..] == [];
  }

  // ----- all layers -----

  function OciAll(fs: Fs, layers: seq<seq<Member>>): Fs
    decreases |layers|
  {
    if layers == [] then fs else OciAll(OciLayer(fs, ChangesOf(layers[0])), layers[1..])
  }

  /** The changes of all layers in the order the OCI rule applies them. */
  function OciChanges(layers: seq<seq<Member>>): seq<Change> {
    if layers == [] then []
    else Markers(ChangesOf(layers[0])) + Entries(ChangesOf(layers[0])) + OciChanges(layers[1..])
  }

  lemma {:induction false} OciAllApplies(fs: Fs, layers: seq<seq<Member>>)
    ensures OciAll(fs, layers) == ApplyAll(fs, OciChanges(layers))
    decreases |layers|
  {
    if layers != [] {
      var cs := ChangesOf(layers[0]);
      OciAllApplies(OciLayer(fs, cs), layers[1..]);
      hide ApplyAll, ChangesOf, Markers, Entries;
      RunsConcat(fs, true, Markers(cs), Entries(cs));
      RunsConcat(fs, true, Markers(cs) + Entries(cs), OciChanges(layers[1..]));
    }
  }

  // ----- the last write of the binary -----

  /** Leaves the binary path alone or, unless `strict`, is overlooked by the inspector. */
  predicate Calm(c: Change, strict: bool) { At(c, BIN).Keep? || (!strict && Overlooked(c)) }

  predicate AllCalm(cs: seq<Change>, strict: bool) { forall i :: 0 <= i < |cs| ==> Calm(cs[i], strict) }

  /** The last change at the binary path that is not calm puts `node` there. */
  predicate Ends(cs: seq<Change>, node: Node, strict: bool) {
    cs != [] && (Ends(cs[1..], node, strict) || (cs[0] == Entry(BIN, node) && AllCalm(cs[1..], strict)))
  }

  lemma {:induction false} EndsConcat(a: seq<Change>, b: seq<Change>, node: Node, strict: bool)
    ensures Ends(b, node, strict) || (Ends(a, node, strict) && AllCalm(b, strict)) ==> Ends(a + b, node, strict)
    ensures Ends(a + b, node, strict) ==> Ends(b, node, strict) || (Ends(a, node, strict) && AllCalm(b, strict))
  {
    hide Calm;
    if a == [] {
      assert a + b == b;
    } else {
      EndsConcat(a[1..], b, node, strict);
      assert (a + b)[1..] == a[1..] + b && (a + b)[0] == a[0];
      CalmConcat(a[1..], b, strict);
      hide AllCalm;
    }
  }

  lemma CalmConcat(a: seq<Change>, b: seq<Change>, strict: bool)
    ensures AllCalm(a + b, strict) <==> AllCalm(a, strict) && AllCalm(b, strict)
  {
    hide Calm;
    if AllCalm(a + b, strict) {
      assert forall i :: 0 <= i < |a| ==> a[i] == (a + b)[i];
      assert forall i :: 0 <= i < |b| ==> b[i] == (a + b)[|a| + i];
    }
  }

  lemma CalmCons(c: Change, cs: seq<Change>, strict: bool)
    ensures AllCalm([c] + cs, strict) <==> Calm(c, strict) && AllCalm(cs, strict)
  {
    hide Calm;
    CalmConcat([c], cs, strict);
    assert [c][0] == c;
  }

  lemma {:induction false} CalmParts(cs: seq<Change>, strict: bool)
    requires AllCalm(cs, strict)
    ensures AllCalm(Markers(cs), strict) && AllCalm(Entries(cs), strict)
  {
    hide Calm;
    if cs != [] {
      CalmCons(cs[0], cs[1..], strict);
      assert cs == [cs[0]] + cs[1..];
      CalmParts(cs[1..], strict);
      MarkersCons(cs);
      hide AllCalm, Markers, Entries;
      CalmCons(cs[0], Markers(cs[1..]), strict);
      CalmCons(cs[0], Entries(cs[1..]), strict);
      assert cs[0].Entry? ==> Entries(cs) == [cs[0]] + Entries(cs[1..]);
      assert !cs[0].Entry? ==> Markers(cs) == [cs[0]] + Markers(cs[1..]);
    }
  }

  lemma {:induction false} EndsEntries(cs: seq<Change>, node: Node, strict: bool)
    requires Ends(cs, node, strict)
    ensures Ends(Entries(cs), node, strict)
  {
    hide Calm, AllCalm;
    MarkersCons(cs);
    if Ends(cs[1..], node, strict) {
      EndsEntries(cs[1..], node, strict);
    } else {
      CalmParts(cs[1..], strict);
    }
    hide Entries;
  }

  /** Reordering by the OCI rule keeps the last write of the binary and what follows it. */
  lemma {:induction false} EndsOci(layers: seq<seq<Member>>, node: Node, strict: bool)
    ensures AllCalm(ChangesOf(AllMembers(layers)), strict) ==> AllCalm(OciChanges(layers), strict)
    ensures Ends(ChangesOf(AllMembers(layers)), node, strict) ==> Ends(OciChanges(layers), node, strict)
  {
    if layers != [] {
      var here, later, oci := ChangesOf(layers[0]), ChangesOf(AllMembers(layers[1..])), OciChanges(layers[1..]);
      EndsOci(layers[1..], node, strict);
      ChangesConcat(layers[0], AllMembers(layers[1..]));
      hide ChangesOf, AllCalm, Ends, Markers, Entries;
      EndsConcat(here, later, node, strict);
      CalmConcat(here, later, strict);
      if AllCalm(here, strict) {
        CalmParts(here, strict);
      }
      if Ends(here, node, strict) {
        EndsEntries(here, node, strict);
      }
      EndsConcat(Markers(here), Entries(here), node, strict);
      CalmConcat(Markers(here), Entries(here), strict);
      EndsConcat(Markers(here) + Entries(here), oci, node, strict);
      CalmConcat(Markers(here) + Entries(here), oci, strict);
    }
  }

  // ----- what the tracker has seen -----

  lemma StepCalm(t: Tracker, next: Tracker, c: Change)
    requires Follows(t, next, c) && next.digest != ""
    ensures c == Entry(BIN, FileNode(next.digest, next.bytes)) ||
            (Calm(c, false) && t.digest == next.digest && t.bytes == next.bytes)
  {
    assert KeepsDigest(t, next, c);
    hide At, Overlooked;
  }

  lemma {:induction false} MembersEnd(t: Tracker, ms: seq<Member>)
    requires TrackMembers(t, ms).Some? && TrackMembers(t, ms).value.digest != ""
    ensures var u := TrackMembers(t, ms).value; var cs := ChangesOf(ms);
      Ends(cs, FileNode(u.digest, u.bytes), false) || (AllCalm(cs, false) && t.digest == u.digest && t.bytes == u.bytes)
    decreases |ms|
  {
    if ms != [] {
      var c, next := ChangeOf(NameOf(ms[0].raw), ms[0].kind), TrackMember(t, ms[0]).value;
      MembersEnd(next, ms[1..]);
      MemberFollows(t, ms[0]);
      assert ChangesOf(ms) == [c] + ChangesOf(ms[1..]) && ChangesOf(ms)[1..] == ChangesOf(ms[1..]);
      hide TrackMember, ChangeOf, NameOf, Follows, ChangesOf, Calm, AllCalm;
      if next.digest != "" {
        StepCalm(t, next, c);
        CalmCons(c, ChangesOf(ms[1..]), false);
      }
    }
  }

  lemma {:induction false} LayersEnd(t: Tracker, layers: seq<seq<Member>>)
    requires TrackLayers(t, layers).Some? && TrackLayers(t, layers).value.digest != ""
    ensures var u := TrackLayers(t, layers).value; var cs := ChangesOf(AllMembers(layers));
      Ends(cs, FileNode(u.digest, u.bytes), false) || (AllCalm(cs, false) && t.digest == u.digest && t.bytes == u.bytes)
    decreases |layers|
  {
    if layers != [] {
      var unnamed, u := t.(names := {}), TrackLayers(t, layers).value;
      var next := TrackMembers(unnamed, layers[0]).value;
      var here, later := ChangesOf(layers[0]), ChangesOf(AllMembers(layers[1..]));
      LayersEnd(next, layers[1..]);
      ChangesConcat(layers[0], AllMembers(layers[1..]));
      hide TrackMembers, ChangesOf, AllCalm, Ends;
      if next.digest != "" {
        MembersEnd(unnamed, layers[0]);
      }
      EndsConcat(here, later, FileNode(u.digest, u.bytes), false);
      CalmConcat(here, later, false);
    }
  }

  // ----- the file at the end -----

  predicate HoldsIf(clean: bool, fs: Fs, node: Node) {
    if clean then Look(fs, BIN) == Some(node) else !HoldsFile(fs)
  }

  lemma {:induction false} CalmHolds(fs: Fs, cs: seq<Change>, node: Node, clean: bool)
    requires AllCalm(cs, false) && HoldsIf(clean, fs, node)
    ensures HoldsIf(CleanAfter(clean, cs), ApplyAll(fs, cs), node)
    decreases |cs|
  {
    if cs != [] {
      var c := cs[0];
      assert Calm(c, false);
      ApplyAt(fs, c, BIN);
      AtBinary(c);
      CalmCons(c, cs[1..], false);
      assert cs == [c] + cs[1..];
      hide ApplyChange, At, Overlooked;
      CalmHolds(ApplyChange(fs, c), cs[1..], node, Clean(clean, c));
    }
  }

  lemma {:induction false} EndsHolds(fs: Fs, cs: seq<Change>, node: Node, clean: bool)
    requires Ends(cs, node, false)
    ensures HoldsIf(CleanAfter(clean, cs), ApplyAll(fs, cs), node)
    decreases |cs|
  {
    var c := cs[0];
    if Ends(cs[1..], node, false) {
      EndsHolds(ApplyChange(fs, c), cs[1..], node, Clean(clean, c));
    } else {
      ApplyAt(fs, c, BIN);
      AtBinary(c);
      CalmHolds(ApplyChange(fs, c), cs[1..], node, true);
    }
  }

  /** With nothing overlooked since the last write, everything after it leaves the path alone. */
  lemma {:induction false} CleanEnds(cs: seq<Change>, node: Node, clean: bool)
    requires Ends(cs, node, false) && CleanAfter(clean, cs)
    ensures Ends(cs, node, true)
    decreases |cs|
  {
    if Ends(cs[1..], node, false) {
      CleanEnds(cs[1..], node, Clean(clean, cs[0]));
    } else {
      AtBinary(cs[0]);
      CleanCalm(cs[1..], true);
    }
  }

  lemma {:induction false} CleanCalm(cs: seq<Change>, clean: bool)
    requires AllCalm(cs, false)
    ensures CleanAfter(clean, cs) ==> AllCalm(cs, true) && clean
    ensures AllCalm(cs, true) && clean ==> CleanAfter(clean, cs)
    decreases |cs|
  {
    if cs != [] {
      var c := cs[0];
      assert Calm(c, false);
      AtBinary(c);
      CalmCons(c, cs[1..], false);
      CalmCons(c, cs[1..], true);
      assert cs == [c] + cs[1..];
      CleanCalm(cs[1..], Clean(clean, c));
      hide At, Overlooked, AllCalm;
    }
  }

  lemma {:induction false} EndsClean(cs: seq<Change>, node: Node, clean: bool)
    requires Ends(cs, node, true)
    ensures CleanAfter(clean, cs)
    decreases |cs|
  {
    if Ends(cs[1..], node, true) {
      EndsClean(cs[1..], node, Clean(clean, cs[0]));
    } else {
      AtBinary(cs[0]);
      CleanCalm(cs[1..], true);
    }
  }

  /**
   Whatever the order of members, an accepted report is the binary of the image the
   OCI rule builds, if and only if nothing is overlooked after the last write in
   that rule's order; and if nothing is in the archive's own order, nothing is there.
   */
  lemma ReportIsOci(layers: seq<seq<Member>>)
    requires Report(layers).Some?
    ensures FsDigest(OciAll(map[], layers)) == Report(layers).value.0 <==> CleanAfter(true, OciChanges(layers))
    ensures CleanAfter(true, ChangesOf(AllMembers(layers))) ==> CleanAfter(true, OciChanges(layers))
  {
    var cs, oci, u := ChangesOf(AllMembers(layers)), OciChanges(layers), TrackLayers(FRESH, layers).value;
    var node := FileNode(u.digest, u.bytes);
    LayersEnd(FRESH, layers);
    OciAllApplies(map[], layers);
    hide ChangesOf, AllMembers, ApplyAll, OciAll, TrackLayers, CleanAfter, OciChanges, Ends, AllCalm;
    EndsOci(layers, node, false);
    EndsHolds(map[], oci, node, true);
    if CleanAfter(true, cs) {
      CleanEnds(cs, node, true);
      EndsOci(layers, node, true);
      EndsClean(oci, node, true);
    }
  }
}
