/**
 Member names and link targets of archive entries, at the level of strings, and
 what they mean as lists of path components.
 */
module Paths {
  const MAX_PATH_BYTES: nat := 1024

  // ----- splitting at slashes -----

  function Split(s: string): (r: seq<string>)
    ensures r != []
  {
    if s == "" then [""]
    else
      var rest := Split(s[1..]);
      if s[0] == '/' then [""] + rest else [[s[0]] + rest[0]] + rest[1..]
  }

  function Join(cs: seq<string>): string {
    if cs == [] then "" else if |cs| == 1 then cs[0] else cs[0] + "/" + Join(cs[1..])
  }

  predicate Plain(c: string) { '/' !in c }

  predicate AllPlain(cs: seq<string>) { forall i :: 0 <= i < |cs| ==> Plain(cs[i]) }

  lemma {:induction false} SplitPlain(s: string)
    ensures AllPlain(Split(s))
  {
    if s != "" {
      SplitPlain(s[1..]);
    }
  }

  lemma {:induction false} SplitOne(c: string)
    requires Plain(c)
    ensures Split(c) == [c]
  {
    if c != "" {
      SplitOne(c[1..]);
      assert [c[0]] + c[1..] == c;
    }
  }

  lemma SplitCons(c: char, s: string)
    ensures Split([c] + s) == if c == '/' then [""] + Split(s) else [[c] + Split(s)[0]] + Split(s)[1..]
  {
    assert ([c] + s)[1..] == s;
  }

  /** A character put in front of a split string, before and after more components follow. */
  lemma FrontConcat(c: char, x: seq<string>, y: seq<string>)
    requires x != []
    ensures [""] + (x + y) == ([""] + x) + y
    ensures [[c] + (x + y)[0]] + (x + y)[1..] == ([[c] + x[0]] + x[1..]) + y
  {
    assert (x + y)[1..] == x[1..] + y;
  }

  lemma HeadConcat(a: string, sep: string, b: string)
    requires a != ""
    ensures a == [a[0]] + a[1..] && a + sep + b == [a[0]] + (a[1..] + sep + b)
  {
  }

  lemma EmptyConcat(sep: string, b: string)
    ensures "" + sep + b == sep + b
  {
  }

  lemma {:induction false} SplitSlash(a: string, b: string)
    ensures Split(a + "/" + b) == Split(a) + Split(b)
  {
    if a == "" {
      SplitCons('/', b);
      EmptyConcat("/", b);
    } else {
      hide Split;
      var c, rest := a[0], a[1..];
      SplitSlash(rest, b);
      SplitCons(c, rest);
      SplitCons(c, rest + "/" + b);
      FrontConcat(c, Split(rest), Split(b));
      HeadConcat(a, "/", b);
    }
  }

  lemma {:induction false} SplitJoin(cs: seq<string>)
    requires cs != [] && AllPlain(cs)
    ensures Split(Join(cs)) == cs
  {
    SplitOne(cs[0]);
    if |cs| > 1 {
      SplitJoin(cs[1..]);
      SplitSlash(cs[0], Join(cs[1..]));
      assert [cs[0]] + cs[1..] == cs;
    }
  }

  lemma {:induction false} JoinSplit(s: string)
    ensures Join(Split(s)) == s
  {
    if s != "" {
      JoinSplit(s[1..]);
      var rest := Split(s[1..]);
      var all := Split(s);
      if s[0] == '/' {
        assert all[1..] == rest;
      } else {
        JoinHead(s[0], rest);
        assert [s[0]] + s[1..] == s;
      }
    }
  }

  lemma JoinHead(c: char, rest: seq<string>)
    requires rest != []
    ensures Join([[c] + rest[0]] + rest[1..]) == [c] + Join(rest)
  {
    var all := [[c] + rest[0]] + rest[1..];
    assert all[1..] == rest[1..];
    if |rest| > 1 {
      assert [c] + rest[0] + "/" + Join(rest[1..]) == [c] + (rest[0] + "/" + Join(rest[1..]));
    }
  }

  /** Distinct strings have distinct component lists. */
  lemma SplitInjective(a: string, b: string)
    ensures Split(a) == Split(b) ==> a == b
  {
    JoinSplit(a);
    JoinSplit(b);
  }

  lemma {:induction false} JoinConcat(a: seq<string>, b: seq<string>)
    requires a != [] && b != []
    ensures Join(a + b) == Join(a) + "/" + Join(b)
  {
    if |a| == 1 {
      assert (a + b)[1..] == b;
    } else {
      JoinConcat(a[1..], b);
      assert (a + b)[1..] == a[1..] + b;
      assert a[0] + "/" + (Join(a[1..]) + "/" + Join(b)) == a[0] + "/" + Join(a[1..]) + "/" + Join(b);
    }
  }

  /** The string test "starts with d/" means: beneath d, component by component. */
  lemma BeneathExactly(d: string, b: string)
    ensures d + "/" <= b <==> Split(d) < Split(b)
  {
    if d + "/" <= b {
      var rest := b[|d| + 1..];
      assert b == d + "/" + rest;
      SplitSlash(d, rest);
    }
    if Split(d) < Split(b) {
      var rest := Split(b)[|Split(d)|..];
      assert Split(b) == Split(d) + rest;
      JoinConcat(Split(d), rest);
      JoinSplit(b);
      JoinSplit(d);
    }
  }

  // ----- names -----

  function Utf8Size(c: char): nat {
    if c as int < 0x80 then 1 else if c as int < 0x800 then 2 else if c as int < 0x10000 then 3 else 4
  }

  function Utf8Len(s: string): (n: nat)
    ensures n == 0 <==> s == ""
  {
    if s == "" then 0 else Utf8Size(s[0]) + Utf8Len(s[1..])
  }

  function RemovePrefix(s: string, p: string): string {
    if p <= s then s[|p|..] else s
  }

  /** The components a path library keeps: empty ones and "." disappear. */
  function Kept(cs: seq<string>): seq<string> {
    if cs == [] then []
    else if cs[0] == "" || cs[0] == "." then Kept(cs[1..])
    else [cs[0]] + Kept(cs[1..])
  }

  /** A relative path written back from its components. */
  function AsPosix(s: string): string {
    var parts := Kept(Split(s));
    if parts == [] then "." else Join(parts)
  }

  predicate IsAbsolute(s: string) { "/" <= s }

  function NameOf(value: string): string { RemovePrefix(value, "./") }

  /** A relative path in the one spelling the path library would write back, without "..". */
  predicate Canonical(name: string) { !IsAbsolute(name) && name == AsPosix(name) && ".." !in Kept(Split(name)) }

  predicate SafeMemberName(value: string) {
    value != "" && Utf8Len(value) <= MAX_PATH_BYTES && Canonical(NameOf(value))
  }

  predicate Proper(c: string) { c != "" && c != "." && c != ".." }

  predicate AllProper(cs: seq<string>) { forall i :: 0 <= i < |cs| ==> Proper(cs[i]) }

  /** The list a name denotes; "." is the root. */
  function Components(name: string): seq<string> {
    if name == "." then [] else Split(name)
  }

  lemma {:induction false} KeptFacts(cs: seq<string>)
    ensures forall c :: c in Kept(cs) <==> c in cs && c != "" && c != "."
    ensures AllPlain(cs) ==> AllPlain(Kept(cs))
    ensures (forall c :: c in cs ==> c != "" && c != ".") ==> Kept(cs) == cs
  {
    if cs != [] {
      KeptFacts(cs[1..]);
      assert cs == [cs[0]] + cs[1..] && cs[0] in cs;
      assert forall c :: c in cs <==> c == cs[0] || c in cs[1..];
    }
  }

  lemma SafeNamesSound(value: string)
    requires SafeMemberName(value)
    ensures AllProper(Components(NameOf(value)))
  {
    var name := NameOf(value);
    var cs := Split(name);
    KeptFacts(cs);
    SplitPlain(name);
    if name != "." {
      SplitJoin(Kept(cs));
      hide Split, Kept, Join;
      assert forall i :: 0 <= i < |cs| ==> cs[i] in cs;
    }
  }

  lemma SafeNamesComplete(value: string)
    requires value != "" && Utf8Len(value) <= MAX_PATH_BYTES && AllProper(Components(NameOf(value)))
    ensures SafeMemberName(value)
  {
    var name := NameOf(value);
    var cs := Split(name);
    if name == "." {
      SplitOne(".");
      KeptFacts(["."]);
      assert Kept(cs) == [];
    } else {
      KeptFacts(cs);
      JoinSplit(name);
      hide Split, Join;
      assert forall c :: c in cs ==> Proper(c);
    }
  }

  /** Accepted names are exactly those whose components are all proper, and the bare root. */
  lemma SafeNamesExactly(value: string)
    ensures SafeMemberName(value) <==>
      && value != "" && Utf8Len(value) <= MAX_PATH_BYTES && AllProper(Components(NameOf(value)))
  {
    if SafeMemberName(value) {
      SafeNamesSound(value);
    }
    if value != "" && Utf8Len(value) <= MAX_PATH_BYTES && AllProper(Components(NameOf(value))) {
      SafeNamesComplete(value);
    }
  }

  /** Accepted names are equal as strings iff they are equal as component lists. */
  lemma NamesCanonical(v: string, w: string)
    requires SafeMemberName(v) && SafeMemberName(w)
    ensures NameOf(v) == NameOf(w) <==> Components(NameOf(v)) == Components(NameOf(w))
  {
    SplitInjective(NameOf(v), NameOf(w));
  }

  // ----- the directory and the last component of a name -----

  function Basename(s: string): string { var cs := Split(s); cs[|cs| - 1] }

  predicate OnlySlashes(s: string) { forall i :: 0 <= i < |s| ==> s[i] == '/' }

  function StripRight(s: string): string
    decreases |s|
  {
    if s != "" && s[|s| - 1] == '/' then StripRight(s[..|s| - 1]) else s
  }

  function StripLeft(s: string): string {
    if s != "" && s[0] == '/' then StripLeft(s[1..]) else s
  }

  function Dirname(s: string): string {
    var cs := Split(s);
    if |cs| == 1 then ""
    else
      var head := Join(cs[..|cs| - 1]) + "/";
      if OnlySlashes(head) then head else StripRight(head)
  }

  /** String joining of a directory and a relative name. */
  function JoinPath(d: string, name: string): string {
    if IsAbsolute(name) then name
    else if d == "" || d[|d| - 1] == '/' then d + name
    else d + "/" + name
  }

  lemma {:induction false} JoinEnds(cs: seq<string>)
    requires cs != [] && AllProper(cs) && AllPlain(cs)
    ensures Join(cs) != "" && Join(cs)[|Join(cs)| - 1] != '/' && Join(cs)[0] != '/'
  {
    if |cs| > 1 {
      JoinEnds(cs[1..]);
    }
  }

  lemma DirnameOfProper(name: string)
    requires AllProper(Split(name))
    ensures Dirname(name) == Join(Split(name)[..|Split(name)| - 1])
    ensures |Split(name)| > 1 ==> Dirname(name) != "" && Dirname(name)[|Dirname(name)| - 1] != '/'
  {
    var cs := Split(name);
    SplitPlain(name);
    var init := cs[..|cs| - 1];
    if |cs| > 1 {
      JoinEnds(init);
      var d := Join(init);
      var head := d + "/";
      assert head[0] != '/' && head[..|head| - 1] == d;
      assert StripRight(head) == StripRight(d) == d;
    }
  }

  // ----- links -----

  /** The component loop of path normalisation, for a relative path. */
  function Normalise(cs: seq<string>, acc: seq<string>): seq<string>
    decreases |cs|
  {
    if cs == [] then acc
    else
      var c := cs[0];
      if c == "" || c == "." then Normalise(cs[1..], acc)
      else if c != ".." || acc == [] || acc[|acc| - 1] == ".." then Normalise(cs[1..], acc + [c])
      else Normalise(cs[1..], acc[..|acc| - 1])
  }

  function NormPath(s: string): string {
    if s == "" then "."
    else
      var cs := Normalise(Split(s), []);
      if cs == [] then "." else Join(cs)
  }

  predicate SafeLinkTarget(member: string, link: string) {
    && link != "" && Utf8Len(link) <= MAX_PATH_BYTES
    && var resolved :=
         if IsAbsolute(link) then NormPath(StripLeft(link)) else NormPath(JoinPath(Dirname(member), link));
       resolved != ".." && !("../" <= resolved)
  }

  /** How far the walk is below its starting directory after these components. */
  function Depth(cs: seq<string>): int {
    if cs == [] then 0
    else
      var c := cs[|cs| - 1];
      Depth(cs[..|cs| - 1]) + if c == "" || c == "." then 0 else if c == ".." then -1 else 1
  }

  /** Walking the components from `depth` never leaves the root, at any prefix. */
  predicate NeverBelow(cs: seq<string>, depth: int) {
    forall k {:trigger cs[..k]} :: 0 <= k <= |cs| ==> depth + Depth(cs[..k]) >= 0
  }

  function Move(c: string): int { if c == "" || c == "." then 0 else if c == ".." then -1 else 1 }

  lemma {:induction false} DepthCons(cs: seq<string>)
    requires cs != []
    ensures Depth(cs) == Move(cs[0]) + Depth(cs[1..])
  {
    if |cs| > 1 {
      var init := cs[..|cs| - 1];
      DepthCons(init);
      assert init[1..] == cs[1..][..|cs| - 2];
    } else {
      assert cs[..0] == [] && cs[1..] == [];
    }
  }

  lemma NeverBelowCons(cs: seq<string>, depth: int)
    requires cs != []
    ensures NeverBelow(cs, depth) <==> depth >= 0 && NeverBelow(cs[1..], depth + Move(cs[0]))
  {
    var rest := cs[1..];
    forall k | 1 <= k <= |cs|
      ensures Depth(cs[..k]) == Move(cs[0]) + Depth(rest[..k - 1])
    {
      DepthCons(cs[..k]);
      assert cs[..k][1..] == rest[..k - 1];
    }
    if NeverBelow(cs, depth) {
      assert cs[..0] == [] && depth + Depth(cs[..0]) >= 0;
      forall k | 0 <= k <= |rest|
        ensures depth + Move(cs[0]) + Depth(rest[..k]) >= 0
      {
        assert depth + Depth(cs[..k + 1]) >= 0;
      }
    }
    if depth >= 0 && NeverBelow(rest, depth + Move(cs[0])) {
      forall k | 0 <= k <= |cs|
        ensures depth + Depth(cs[..k]) >= 0
      {
        if k > 0 {
          assert depth + Move(cs[0]) + Depth(rest[..k - 1]) >= 0;
        } else {
          assert cs[..0] == [];
        }
      }
    }
  }

  predicate Escapes(cs: seq<string>) { cs != [] && cs[0] == ".." }

  lemma {:induction false} EscapedStays(cs: seq<string>, acc: seq<string>)
    requires Escapes(acc)
    ensures Escapes(Normalise(cs, acc))
    decreases |cs|
  {
    if cs != [] {
      var c := cs[0];
      if c == "" || c == "." {
        EscapedStays(cs[1..], acc);
      } else if c != ".." || acc[|acc| - 1] == ".." {
        EscapedStays(cs[1..], acc + [c]);
      } else {
        EscapedStays(cs[1..], acc[..|acc| - 1]);
      }
    }
  }

  /** Normalisation leaves a leading ".." exactly when the walk went above its start at some prefix. */
  lemma {:induction false} NormaliseEscapes(cs: seq<string>, acc: seq<string>)
    requires ".." !in acc
    ensures Escapes(Normalise(cs, acc)) <==> !NeverBelow(cs, |acc|)
    decreases |cs|
  {
    if cs == [] {
      assert forall k | 0 <= k <= |cs| :: cs[..k] == [];
    } else {
      var c, rest := cs[0], cs[1..];
      NeverBelowCons(cs, |acc|);
      if c == "" || c == "." {
        NormaliseEscapes(rest, acc);
      } else if c != ".." {
        NormaliseEscapes(rest, acc + [c]);
      } else if acc == [] {
        EscapedStays(rest, [".."]);
        assert acc + [c] == [".."];
        assert rest[..0] == [];
      } else {
        NormaliseEscapes(rest, acc[..|acc| - 1]);
      }
    }
  }

  lemma {:induction false} NormalisePlain(cs: seq<string>, acc: seq<string>)
    requires AllPlain(cs) && AllPlain(acc)
    ensures AllPlain(Normalise(cs, acc))
    decreases |cs|
  {
    if cs != [] {
      var c := cs[0];
      if c == "" || c == "." {
        NormalisePlain(cs[1..], acc);
      } else if c != ".." || acc == [] || acc[|acc| - 1] == ".." {
        NormalisePlain(cs[1..], acc + [c]);
      } else {
        NormalisePlain(cs[1..], acc[..|acc| - 1]);
      }
    }
  }

  lemma LeadingDots(cs: seq<string>)
    requires cs != [] && AllPlain(cs)
    ensures (Join(cs) == ".." || "../" <= Join(cs)) <==> Escapes(cs)
  {
    SplitJoin(cs);
    SplitOne("..");
    BeneathExactly("..", Join(cs));
    assert ".." + "/" == "../";
  }

  lemma NormPathEscapes(s: string)
    ensures (NormPath(s) == ".." || "../" <= NormPath(s)) <==> !NeverBelow(Split(s), 0)
  {
    if s == "" {
      assert Split(s) == [""];
      NormaliseEscapes(Split(s), []);
    } else {
      var cs := Normalise(Split(s), []);
      SplitPlain(s);
      NormalisePlain(Split(s), []);
      NormaliseEscapes(Split(s), []);
      if cs != [] {
        LeadingDots(cs);
      }
    }
  }

  lemma {:induction false} ProperDescends(cs: seq<string>, rest: seq<string>, depth: nat)
    requires AllProper(cs)
    ensures NeverBelow(cs + rest, depth) <==> NeverBelow(rest, depth + |cs|)
  {
    if cs == [] {
      assert cs + rest == rest;
    } else {
      NeverBelowCons(cs + rest, depth);
      assert (cs + rest)[1..] == cs[1..] + rest;
      ProperDescends(cs[1..], rest, depth + 1);
    }
  }

  lemma {:induction false} LeadingSlashes(s: string, depth: nat)
    ensures NeverBelow(Split(s), depth) <==> NeverBelow(Split(StripLeft(s)), depth)
  {
    if s != "" && s[0] == '/' {
      LeadingSlashes(s[1..], depth);
      NeverBelowCons(Split(s), depth);
      assert Split(s)[1..] == Split(s[1..]);
    }
  }

  /**
   Containment: a link is accepted iff it has 1 to 1024 bytes and walking its
   components, from the member's directory or from the root if absolute, never
   leaves the root.
   */
  lemma SafeLinksExactly(value: string, link: string)
    requires SafeMemberName(value)
    ensures var cs := Components(NameOf(value));
      var start := if IsAbsolute(link) || cs == [] then 0 else |cs| - 1;
      SafeLinkTarget(NameOf(value), link) <==> 1 <= Utf8Len(link) <= MAX_PATH_BYTES && NeverBelow(Split(link), start)
  {
    var name := NameOf(value);
    SafeNamesExactly(value);
    RootDirname();
    hide Split, NormPath, NeverBelow, Dirname, StripLeft, SafeMemberName;
    if IsAbsolute(link) {
      NormPathEscapes(StripLeft(link));
      LeadingSlashes(link, 0);
    } else if name == "." {
      NormPathEscapes(link);
      assert JoinPath("", link) == link;
    } else {
      RelativeLink(name, link);
    }
  }

  lemma RootDirname()
    ensures Dirname(".") == ""
  {
    SplitOne(".");
  }

  lemma RelativeLink(name: string, link: string)
    requires AllProper(Split(name)) && !IsAbsolute(link)
    ensures (NormPath(JoinPath(Dirname(name), link)) == ".." || "../" <= NormPath(JoinPath(Dirname(name), link))) <==>
      !NeverBelow(Split(link), |Split(name)| - 1)
  {
    var init := Split(name)[..|Split(name)| - 1];
    var joined := JoinPath(Dirname(name), link);
    DirnameOfProper(name);
    NormPathEscapes(joined);
    ProperDescends(init, Split(link), 0);
    JoinedComponents(name, link);
    hide Split, NormPath, NeverBelow, Dirname, JoinPath;
  }

  /** Joining the directory of a name and a relative path joins their components. */
  lemma JoinedComponents(name: string, link: string)
    requires AllProper(Split(name)) && !IsAbsolute(link)
    ensures Split(JoinPath(Dirname(name), link)) == Split(name)[..|Split(name)| - 1] + Split(link)
  {
    DirnameOfProper(name);
    SplitPlain(name);
    hide Split, Join, Dirname;
    var init := Split(name)[..|Split(name)| - 1];
    if init == [] {
      NothingJoined();
      assert JoinPath("", link) == link && init + Split(link) == Split(link);
    } else {
      SplitJoin(init);
      SplitSlash(Dirname(name), link);
    }
  }

  lemma NothingJoined()
    ensures Join([]) == ""
  {
  }
}
