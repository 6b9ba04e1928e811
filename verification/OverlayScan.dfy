/**
 The layer scan as the loops run it, what its report is worth, and the order of
 whiteouts within a layer.
 */
module OverlayScan {
  import opened Prelude
  import opened Paths
  import opened Overlay
  import opened OverlayGate

  // ----- the loops -----

  method MarkMissing(st: map<string, AncestorState>, hides: string -> bool) returns (r: map<string, AncestorState>)
    ensures r == Marked(st, ANCESTORS, hides)
  {
    r := st;
    var i := 0;
    assert ANCESTORS[0..] == ANCESTORS;
    while i < |ANCESTORS|
      invariant 0 <= i <= |ANCESTORS| && Marked(st, ANCESTORS, hides) == Marked(r, ANCESTORS[i..], hides)
    {
      assert ANCESTORS[i..][1..] == ANCESTORS[i + 1..];
      if hides(ANCESTORS[i]) {
        r := r[ANCESTORS[i] := Missing];
      }
      i := i + 1;
    }
  }

  /** One member, by the branches of the scan. */
  method ScanName(t: Tracker, name: string, kind: Kind) returns (r: Option<Tracker>)
    ensures r == TrackName(t, name, kind)
  {
    hide Split, StripRight, Join, Dirname, Marked;
    var digest, bytes, ancestors := t.digest, t.bytes, t.ancestors;
    var base := Basename(name);
    if base == OPAQUE {
      var d := StripRight(Dirname(name));
      if d + "/" <= BINARY {
        digest, bytes := "", 0;
      }
      if d in ANCESTORS {
        ancestors := ancestors[d := IsDirectory];
      }
      ancestors := MarkMissing(ancestors, a => OpaqueHides(name, a));
    } else if WHITEOUT <= base {
      var removed := JoinPath(Dirname(name), RemovePrefix(base, WHITEOUT));
      if removed == BINARY || StripRight(removed) + "/" <= BINARY {
        digest, bytes := "", 0;
      }
      ancestors := MarkMissing(ancestors, a => WhiteoutHides(name, a));
    } else if name in ANCESTORS {
      if kind.Directory? {
        ancestors := ancestors[name := IsDirectory];
      } else {
        ancestors := ancestors[name := Blocked];
        digest, bytes := "", 0;
      }
    } else if name == BINARY {
      if !kind.File? || kind.size < 1 || kind.size > MAX_BINARY_BYTES {
        return None;
      }
      var i := 0;
      while i < |ANCESTORS|
        invariant 0 <= i <= |ANCESTORS| && forall j :: 0 <= j < i ==> Standing(t, ANCESTORS[j])
      {
        if ANCESTORS[i] in ancestors && !ancestors[ANCESTORS[i]].IsDirectory? {
          return None;
        }
        i := i + 1;
      }
      digest, bytes := DigestOf(kind.hash), kind.size;
    }
    return Some(Tracker(digest, bytes, ancestors, t.members, t.expanded, t.names));
  }

  /** The archive is refused unless a non-empty binary is left at the end. */
  ghost function Report(layers: seq<seq<Member>>): Option<(string, int)> {
    var t := TrackLayers(FRESH, layers);
    if t.None? || t.value.digest == "" || t.value.bytes < 1 then None else Some((t.value.digest, t.value.bytes))
  }

  /** One layer; a member that leads out of the root refuses it. */
  method ScanLayer(t: Tracker, ms: seq<Member>) returns (r: Option<Tracker>)
    ensures r == TrackMembers(t, ms)
    ensures r.Some? ==> AllContained(ms)
  {
    hide SafeMemberName, SafeLinkTarget, TrackName, AllContained;
    var cur, j := t, 0;
    assert ms[0..] == ms;
    while j < |ms|
      invariant 0 <= j <= |ms| && TrackMembers(t, ms) == TrackMembers(cur, ms[j..])
    {
      var m := ms[j];
      assert ms[j..][0] == m && ms[j..][1..] == ms[j + 1..];
      var name := NameOf(m.raw);
      if cur.members + 1 > MAX_LAYER_MEMBERS || !SafeMemberName(m.raw) || m.kind.Special?
         || ((m.kind.SymLink? || m.kind.HardLink?) && !SafeLinkTarget(name, m.kind.target))
         || name in cur.names {
        return None;
      }
      var size := 0;
      if m.kind.File? {
        size := m.kind.size;
        if size < 0 || size > MAX_MEMBER_BYTES || cur.expanded + size > MAX_LAYER_EXPANDED_BYTES {
          return None;
        }
      }
      var next := ScanName(
        cur.(members := cur.members + 1, names := cur.names + {name}, expanded := cur.expanded + size), name, m.kind);
      if next.None? {
        return None;
      }
      cur := next.value;
      j := j + 1;
    }
    MembersContained(t, ms);
    return Some(cur);
  }

  /** All layers; the report is the full filesystem's file exactly when nothing was overlooked. */
  method InspectLayers(layers: seq<seq<Member>>) returns (r: Option<(string, int)>)
    ensures r == Report(layers)
    ensures r.Some? ==> AllContained(AllMembers(layers))
    ensures r.Some? ==>
      (FsDigest(ApplyAll(map[], ChangesOf(AllMembers(layers)))) == r.value.0 <==> CleanAfter(true, ChangesOf(AllMembers(layers))))
  {
    hide TrackMembers;
    var t, i := FRESH, 0;
    assert layers[0..] == layers;
    while i < |layers|
      invariant 0 <= i <= |layers| && TrackLayers(FRESH, layers) == TrackLayers(t, layers[i..])
    {
      assert layers[i..][0] == layers[i] && layers[i..][1..] == layers[i + 1..];
      var next := ScanLayer(t.(names := {}), layers[i]);
      if next.None? {
        return None;
      }
      t := next.value;
      i := i + 1;
    }
    if t.digest == "" || t.bytes < 1 {
      return None;
    }
    ReportExactly(layers);
    LayersContained(FRESH, layers);
    return Some((t.digest, t.bytes));
  }

  // ----- archives that stay clear of the overlooked cases -----

  /** An opaque marker sits in a named directory, a whiteout has a name, nothing lies beneath the binary path. */
  predicate Tame(c: Change) { !Overlooked(c) && !Nameless(c) }

  predicate AllTame(cs: seq<Change>) { forall i :: 0 <= i < |cs| ==> Tame(cs[i]) }

  lemma TameStep(t: Tracker, next: Tracker, fs: Fs, c: Change)
    requires FsDigest(fs) == t.digest && Follows(t, next, c) && Tame(c)
    ensures FsDigest(ApplyChange(fs, c)) == next.digest
  {
    ApplyAt(fs, c, BIN);
    AtBinary(c);
    if !(c.Entry? && c.path == BIN) {
      BecomesAtBinary(c);
    }
    hide ApplyChange, At;
  }

  lemma BecomesAtBinary(c: Change)
    requires !Overlooked(c) && !(c.Entry? && c.path == BIN)
    ensures At(c, BIN).Keep? || At(c, BIN) == Become(None)
  {
  }

  lemma {:induction false} TameMembers(t: Tracker, ms: seq<Member>, fs: Fs)
    requires FsDigest(fs) == t.digest && TrackMembers(t, ms).Some? && AllTame(ChangesOf(ms))
    ensures FsDigest(ApplyAll(fs, ChangesOf(ms))) == TrackMembers(t, ms).value.digest
    decreases |ms|
  {
    hide TrackMember, Tame, ApplyChange, ChangeOf, NameOf, FsDigest;
    if ms != [] {
      var c := ChangeOf(NameOf(ms[0].raw), ms[0].kind);
      var rest := ChangesOf(ms[1..]);
      assert ChangesOf(ms)[0] == c && ChangesOf(ms)[1..] == rest;
      MemberFollows(t, ms[0]);
      TameStep(t, TrackMember(t, ms[0]).value, fs, c);
      assert forall i :: 0 <= i < |rest| ==> rest[i] == ChangesOf(ms)[i + 1];
      TameMembers(TrackMember(t, ms[0]).value, ms[1..], ApplyChange(fs, c));
    }
  }

  /**
   For such archives the tracked digest is the filesystem's at every point of the
   scan, present or absent, and not only at the end of an accepted one.
   */
  lemma {:induction false} TameLayers(t: Tracker, layers: seq<seq<Member>>, fs: Fs)
    requires FsDigest(fs) == t.digest && TrackLayers(t, layers).Some? && AllTame(ChangesOf(AllMembers(layers)))
    ensures FsDigest(ApplyAll(fs, ChangesOf(AllMembers(layers)))) == TrackLayers(t, layers).value.digest
    decreases |layers|
  {
    hide TrackMembers, Tame, ApplyChange, ChangesOf, FsDigest;
    if layers == [] {
      NoChanges();
    } else {
      var here, later := ChangesOf(layers[0]), ChangesOf(AllMembers(layers[1..]));
      ChangesConcat(layers[0], AllMembers(layers[1..]));
      assert here == (here + later)[..|here|] && later == (here + later)[|here|..];
      RunsConcat(fs, true, here, later);
      var u := t.(names := {});
      TameMembers(u, layers[0], fs);
      TameLayers(TrackMembers(u, layers[0]).value, layers[1..], ApplyAll(fs, here));
    }
  }

  lemma NoChanges()
    ensures ChangesOf([]) == []
  {
  }

  // ----- the shortest archive whose report is wrong -----

  lemma {:induction false} Utf8Bound(s: string)
    ensures Utf8Len(s) <= 4 * |s|
  {
    if s != "" {
      Utf8Bound(s[1..]);
    }
  }

  lemma BinaryAccepted(t: Tracker, size: int, hash: string)
    requires 1 <= size <= MAX_BINARY_BYTES && t == FRESH
    ensures var m := Member(BINARY, File(size, hash));
      && TrackMember(t, m).Some? && TrackMember(t, m).value.digest == DigestOf(hash)
      && TrackMember(t, m).value == Tracker(DigestOf(hash), size, map[], 1, size, {BINARY})
      && ChangeOf(NameOf(BINARY), File(size, hash)) == Entry(BIN, FileNode(DigestOf(hash), size))
  {
    ProperPaths();
    Utf8Bound(BINARY);
    assert |BINARY| == 23 && BINARY[0] == 'u';
    assert NameOf(BINARY) == BINARY;
    assert BIN[|BIN| - 1] == "masi-edge" && WHITEOUT[0] != "masi-edge"[0] && WHITEOUT <= OPAQUE;
    assert |USR| < |USR_LOCAL| < |USR_LOCAL_BIN| < |BINARY|;
    SafeNamesExactly(BINARY);
    hide Split, SafeMemberName, Utf8Len;
  }

  lemma RootMarker(kind: Kind)
    ensures NameOf(OPAQUE) == OPAQUE && SafeMemberName(OPAQUE) && Basename(OPAQUE) == OPAQUE
    ensures ChangeOf(OPAQUE, kind) == Opaque([]) && !OpaqueHides(OPAQUE, BINARY)
  {
    hide Split, Utf8Len, Join, StripRight, Dirname, SafeMemberName, OpaqueHides;
    assert |OPAQUE| == 12 && OPAQUE[1] == 'w';
    assert NameOf(OPAQUE) == OPAQUE;
    SplitOne(OPAQUE);
    assert Components(OPAQUE) == [OPAQUE] && Basename(OPAQUE) == OPAQUE;
    assert [OPAQUE][..0] == [];
    Utf8Bound(OPAQUE);
    SafeNamesExactly(OPAQUE);
    ProperPaths();
    OpaqueHidesExactly(OPAQUE, BINARY);
  }

  lemma RootMarkerIgnored(t: Tracker, hash: string)
    requires t.members < MAX_LAYER_MEMBERS && t.names == {} && 0 <= t.expanded <= MAX_LAYER_EXPANDED_BYTES
    ensures var m := Member(OPAQUE, File(0, hash));
      && TrackMember(t, m).Some? && TrackMember(t, m).value.digest == t.digest && TrackMember(t, m).value.bytes == t.bytes
  {
    RootMarker(File(0, hash));
    hide Split, SafeMemberName, Marked, OpaqueHides, OpaqueDir, NameOf, Basename;
  }

  lemma OneMemberLayers(a: Member, b: Member)
    requires TrackMember(FRESH, a).Some? && TrackMember(TrackMember(FRESH, a).value.(names := {}), b).Some?
    ensures TrackLayers(FRESH, [[a], [b]]) == TrackMember(TrackMember(FRESH, a).value.(names := {}), b)
  {
    hide TrackMember;
    var one := TrackMember(FRESH, a).value.(names := {});
    assert [a][1..] == [] && [b][1..] == [] && FRESH.(names := {}) == FRESH;
    assert TrackMembers(FRESH, [a]) == TrackMember(FRESH, a);
    assert TrackMembers(one, [b]) == TrackMember(one, b);
    assert [[a], [b]][1..] == [[b]] && [[b]][1..] == [];
    assert TrackLayers(TrackMember(FRESH, a).value, [[b]]) == TrackMember(one, b);
  }

  lemma OneMemberChanges(a: Member, b: Member)
    ensures ChangesOf(AllMembers([[a], [b]])) == [ChangeOf(NameOf(a.raw), a.kind), ChangeOf(NameOf(b.raw), b.kind)]
  {
    hide ChangeOf, NameOf;
    assert [[a], [b]][1..] == [[b]] && [[b]][1..] == [];
    assert AllMembers([[b]]) == [b] && AllMembers([[a], [b]]) == [a, b];
    assert [a, b][1..] == [b] && [b][1..] == [];
    assert ChangesOf([b]) == [ChangeOf(NameOf(b.raw), b.kind)];
    assert ChangesOf([a, b]) == [ChangeOf(NameOf(a.raw), a.kind)] + ChangesOf([b]);
  }

  lemma EndsDirty(c: Change)
    ensures !CleanAfter(true, [c, Opaque([])])
  {
    var changes := [c, Opaque([])];
    assert changes[1..] == [Opaque([])] && [Opaque([])][1..] == [];
    assert CleanAfter(true, changes) == CleanAfter(Clean(true, c), [Opaque([])]);
  }

  /** An opaque marker at the root of a later layer deletes the binary; the inspector still reports it. */
  lemma RootOpaqueMisreported(size: int, hash: string)
    requires 1 <= size <= MAX_BINARY_BYTES
    ensures var layers := [[Member(BINARY, File(size, hash))], [Member(OPAQUE, File(0, hash))]];
      && Report(layers) == Some((DigestOf(hash), size))
      && FsDigest(ApplyAll(map[], ChangesOf(AllMembers(layers)))) == ""
  {
    hide TrackMember, NameOf, ChangeOf, TrackLayers, ChangesOf, AllMembers, SafeMemberName, CleanAfter, Basename, OpaqueHides;
    var a, b := Member(BINARY, File(size, hash)), Member(OPAQUE, File(0, hash));
    BinaryAccepted(FRESH, size, hash);
    RootMarkerIgnored(TrackMember(FRESH, a).value.(names := {}), hash);
    RootMarker(b.kind);
    OneMemberLayers(a, b);
    OneMemberChanges(a, b);
    EndsDirty(ChangeOf(NameOf(a.raw), a.kind));
    ReportExactly([[a], [b]]);
  }
}
