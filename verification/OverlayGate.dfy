/**
 Which members of a layer the inspector lets through, said of the names and the
 links themselves: where they lead, not how they are rewritten on the way.
 */
module OverlayGate {
  import opened Prelude
  import opened Paths
  import opened Overlay

  /** A name of proper components below the root. */
  predicate Named(m: Member) {
    m.raw != "" && Utf8Len(m.raw) <= 1_024 && AllProper(Components(NameOf(m.raw)))
  }

  /** Walking the link, from the member's own directory or from the root if absolute, never leaves the root. */
  predicate Stays(m: Member, link: string) {
    var cs := Components(NameOf(m.raw));
    1 <= Utf8Len(link) <= 1_024 && NeverBelow(Split(link), if IsAbsolute(link) || cs == [] then 0 else |cs| - 1)
  }

  predicate Contained(m: Member) {
    Named(m) && match m.kind
                case SymLink(target) => Stays(m, target)
                case HardLink(target) => Stays(m, target)
                case File(size, _) => 0 <= size <= 67_108_864
                case Directory => true
                case Special => false
  }

  predicate AllContained(ms: seq<Member>) { forall i :: 0 <= i < |ms| ==> Contained(ms[i]) }

  lemma AllowedExactly(m: Member)
    ensures Contained(m) <==> MemberAllowed(m) && (m.kind.File? ==> 0 <= m.kind.size <= MAX_MEMBER_BYTES)
  {
    SafeNamesExactly(m.raw);
    hide SafeMemberName, SafeLinkTarget, Components, NameOf, NeverBelow, Split;
    if SafeMemberName(m.raw) && (m.kind.SymLink? || m.kind.HardLink?) {
      SafeLinksExactly(m.raw, m.kind.target);
    }
  }

  lemma TrackedContained(t: Tracker, m: Member)
    requires TrackMember(t, m).Some?
    ensures Contained(m)
  {
    AllowedExactly(m);
    hide MemberAllowed, Contained, NameOf, TrackName;
  }

  lemma {:induction false} MembersContained(t: Tracker, ms: seq<Member>)
    requires TrackMembers(t, ms).Some?
    ensures AllContained(ms)
    decreases |ms|
  {
    hide TrackMember, Contained;
    if ms != [] {
      TrackedContained(t, ms[0]);
      MembersContained(TrackMember(t, ms[0]).value, ms[1..]);
    }
  }

  /** Nothing in an archive that is not refused leads out of its root. */
  lemma {:induction false} LayersContained(t: Tracker, layers: seq<seq<Member>>)
    requires TrackLayers(t, layers).Some?
    ensures AllContained(AllMembers(layers))
    decreases |layers|
  {
    hide TrackMembers, Contained;
    if layers != [] {
      MembersContained(t.(names := {}), layers[0]);
      LayersContained(TrackMembers(t.(names := {}), layers[0]).value, layers[1..]);
    }
  }
}
