/** The block parser that extracts registry packages from a Cargo lock file. */
module CargoLock {
  import opened Prelude

  const HEADER: string := "[[package]]"
  const REGISTRY: string := "registry+"

  datatype Field = Name | Version | Source

  function Lead(f: Field): string {
    match f case Name => "name = \"" case Version => "version = \"" case Source => "source = \""
  }

  predicate Matches(line: string, f: Field) {
    Lead(f) <= line && |line| > |Lead(f)| && line[|line| - 1] == '"'
  }

  /** The field a line sets, and its text between the outer quotes. */
  function FieldOf(line: string): Option<(Field, string)> {
    if Matches(line, Name) then Some((Name, line[|Lead(Name)|..|line| - 1]))
    else if Matches(line, Version) then Some((Version, line[|Lead(Version)|..|line| - 1]))
    else if Matches(line, Source) then Some((Source, line[|Lead(Source)|..|line| - 1]))
    else None
  }

  type Block = map<Field, string>

  datatype State = State(done: seq<Block>, current: Option<Block>)

  function Feed(s: State, line: string): State {
    if line == HEADER then
      State(if s.current.Some? then s.done + [s.current.value] else s.done, Some(map[]))
    else if s.current.None? then s
    else
      var m := FieldOf(line);
      if m.None? then s else s.(current := Some(s.current.value[m.value.0 := m.value.1]))
  }

  function FeedAll(s: State, lines: seq<string>): State
    decreases |lines|
  {
    if lines == [] then s else FeedAll(Feed(s, lines[0]), lines[1..])
  }

  /** The loop, with a closing header after the last line. */
  method ReadBlocks(lines: seq<string>) returns (blocks: seq<Block>)
    ensures blocks == FeedAll(State([], None), lines + [HEADER]).done
  {
    var all := lines + [HEADER];
    blocks := [];
    var current: Option<Block> := None;
    var i := 0;
    assert all[0..] == all;
    while i < |all|
      invariant 0 <= i <= |all| && FeedAll(State([], None), all) == FeedAll(State(blocks, current), all[i..])
    {
      var line := all[i];
      assert all[i..][0] == line && all[i..][1..] == all[i + 1..];
      i := i + 1;
      if line == HEADER {
        if current.Some? {
          blocks := blocks + [current.value];
        }
        current := Some(map[]);
        continue;
      }
      if current.None? {
        continue;
      }
      var m := FieldOf(line);
      if m.Some? {
        current := Some(current.value[m.value.0 := m.value.1]);
      }
    }
  }

  predicate FromRegistry(b: Block) { Source in b && REGISTRY <= b[Source] }

  /** Name and version of every registry block; a block without them is an error. */
  function Packages(blocks: seq<Block>): Option<set<(string, string)>> {
    if exists i :: 0 <= i < |blocks| && FromRegistry(blocks[i]) && !(Name in blocks[i] && Version in blocks[i]) then None
    else Some(set i | 0 <= i < |blocks| && FromRegistry(blocks[i]) :: (blocks[i][Name], blocks[i][Version]))
  }

  // ----- lock files as they are written -----

  /** A package entry: the fields in order, then whatever else stands before the next entry. */
  datatype Package = Package(name: string, version: string, source: Option<string>, others: seq<string>)

  function Quoted(f: Field, text: string): string { Lead(f) + text + "\"" }

  predicate NoHeader(lines: seq<string>) { forall i :: 0 <= i < |lines| ==> lines[i] != HEADER }

  function Render(p: Package): seq<string> {
    [HEADER, Quoted(Name, p.name), Quoted(Version, p.version)]
      + (if p.source.Some? then [Quoted(Source, p.source.value)] else []) + p.others
  }

  function RenderAll(ps: seq<Package>): seq<string> {
    if ps == [] then [] else Render(ps[0]) + RenderAll(ps[1..])
  }

  function BlockOf(p: Package): Block {
    var b := map[Name := p.name, Version := p.version];
    if p.source.Some? then b[Source := p.source.value] else b
  }

  function BlocksRead(ps: seq<Package>): seq<Block> {
    if ps == [] then [] else [Overwritten(BlockOf(ps[0]), ps[0].others)] + BlocksRead(ps[1..])
  }

  function BlocksOf(ps: seq<Package>): seq<Block> { if ps == [] then [] else [BlockOf(ps[0])] + BlocksOf(ps[1..]) }

  lemma QuotedField(f: Field, text: string)
    ensures FieldOf(Quoted(f, text)) == Some((f, text)) && Quoted(f, text) != HEADER
  {
    var line := Quoted(f, text);
    assert line[..|Lead(f)|] == Lead(f) && line[|Lead(f)|..|line| - 1] == text;
    assert line[0] == Lead(f)[0] && Lead(Name)[0] == 'n' && Lead(Version)[0] == 'v' && Lead(Source)[0] == 's';
    assert HEADER[0] == '[';
  }

  lemma {:induction false} FeedConcat(s: State, a: seq<string>, b: seq<string>)
    ensures FeedAll(s, a + b) == FeedAll(FeedAll(s, a), b)
    decreases |a|
  {
    if a == [] {
      assert a + b == b;
    } else {
      FeedConcat(Feed(s, a[0]), a[1..], b);
      assert (a + b)[1..] == a[1..] + b;
    }
  }

  /** A block after lines that are no header: each field line overwrites. */
  function Overwritten(b: Block, lines: seq<string>): Block
    decreases |lines|
  {
    if lines == [] then b
    else
      var m := FieldOf(lines[0]);
      Overwritten(if m.None? then b else b[m.value.0 := m.value.1], lines[1..])
  }

  lemma {:induction false} FeedOthers(done: seq<Block>, b: Block, lines: seq<string>)
    requires NoHeader(lines)
    ensures FeedAll(State(done, Some(b)), lines) == State(done, Some(Overwritten(b, lines)))
    decreases |lines|
  {
    hide FieldOf;
    if lines != [] {
      assert forall i :: 0 <= i < |lines| - 1 ==> lines[1..][i] == lines[i + 1];
      var m := FieldOf(lines[0]);
      FeedOthers(done, if m.None? then b else b[m.value.0 := m.value.1], lines[1..]);
    }
  }

  /** What the lines set a field to in the end. */
  function LastSet(lines: seq<string>, f: Field): Option<string> {
    if lines == [] then None
    else
      var later, m := LastSet(lines[1..], f), FieldOf(lines[0]);
      if later.Some? then later else if m.Some? && m.value.0 == f then Some(m.value.1) else None
  }

  lemma {:induction false} OverwrittenAt(b: Block, lines: seq<string>, f: Field)
    ensures var r, t := Overwritten(b, lines), LastSet(lines, f);
      if t.Some? then f in r && r[f] == t.value else (f in r <==> f in b) && (f in b ==> r[f] == b[f])
    decreases |lines|
  {
    hide FieldOf;
    if lines != [] {
      var m := FieldOf(lines[0]);
      OverwrittenAt(if m.None? then b else b[m.value.0 := m.value.1], lines[1..], f);
    }
  }

  /** The lines after an entry set no field of it to anything else. */
  predicate Undisturbed(p: Package) {
    forall f: Field :: LastSet(p.others, f).Some? ==> f in BlockOf(p) && LastSet(p.others, f).value == BlockOf(p)[f]
  }

  lemma UndisturbedExactly(p: Package)
    ensures Overwritten(BlockOf(p), p.others) == BlockOf(p) <==> Undisturbed(p)
  {
    var b, r := BlockOf(p), Overwritten(BlockOf(p), p.others);
    hide BlockOf, Overwritten, LastSet;
    forall f: Field
      ensures var t := LastSet(p.others, f);
        if t.Some? then f in r && r[f] == t.value else (f in r <==> f in b) && (f in b ==> r[f] == b[f])
    {
      OverwrittenAt(b, p.others, f);
    }
    if Undisturbed(p) {
      assert r.Keys == b.Keys;
    }
  }

  lemma FeedThree(s: State, a: string, b: string, c: string)
    ensures FeedAll(s, [a, b, c]) == Feed(Feed(Feed(s, a), b), c)
  {
    hide Feed;
    assert [a, b, c][1..] == [b, c] && [b, c][1..] == [c] && [c][1..] == [];
    assert FeedAll(Feed(s, a), [b, c]) == FeedAll(Feed(Feed(s, a), b), [c]);
  }

  lemma FeedOne(s: State, a: string)
    ensures FeedAll(s, [a]) == Feed(s, a)
  {
    assert [a][1..] == [];
  }

  function Closed(s: State): seq<Block> { if s.current.Some? then s.done + [s.current.value] else s.done }

  lemma FeedPackage(s: State, p: Package)
    requires NoHeader(p.others)
    ensures FeedAll(s, Render(p)) == State(Closed(s), Some(Overwritten(BlockOf(p), p.others)))
  {
    QuotedField(Name, p.name);
    QuotedField(Version, p.version);
    hide FieldOf, Quoted, Overwritten;
    var head := [HEADER, Quoted(Name, p.name), Quoted(Version, p.version)];
    var source := if p.source.Some? then [Quoted(Source, p.source.value)] else [];
    FeedConcat(s, head + source, p.others);
    FeedConcat(s, head, source);
    FeedThree(s, HEADER, Quoted(Name, p.name), Quoted(Version, p.version));
    var named := State(Closed(s), Some(map[Name := p.name, Version := p.version]));
    assert FeedAll(s, head) == named;
    if p.source.Some? {
      QuotedField(Source, p.source.value);
      FeedOne(named, Quoted(Source, p.source.value));
    }
    FeedOthers(Closed(s), BlockOf(p), p.others);
  }

  lemma FeedNothing(s: State)
    ensures FeedAll(s, []) == s
  {
  }

  lemma {:induction false} FeedPackages(s: State, ps: seq<Package>)
    requires forall i :: 0 <= i < |ps| ==> NoHeader(ps[i].others)
    ensures Closed(FeedAll(s, RenderAll(ps))) == Closed(s) + BlocksRead(ps)
    decreases |ps|
  {
    hide Render, BlockOf, NoHeader, Overwritten, FeedAll;
    if ps == [] {
      FeedNothing(s);
      assert Closed(s) + [] == Closed(s);
    } else {
      var block := Overwritten(BlockOf(ps[0]), ps[0].others);
      var next := State(Closed(s), Some(block));
      FeedConcat(s, Render(ps[0]), RenderAll(ps[1..]));
      FeedPackage(s, ps[0]);
      FeedPackages(next, ps[1..]);
      Regroup(Closed(s), [block], BlocksRead(ps[1..]));
    }
  }

  lemma FeedFile(preamble: seq<string>, ps: seq<Package>)
    requires NoHeader(preamble) && forall i :: 0 <= i < |ps| ==> NoHeader(ps[i].others)
    ensures FeedAll(State([], None), preamble + RenderAll(ps) + [HEADER]).done == BlocksRead(ps)
  {
    var start := State([], None);
    FeedConcat(start, preamble + RenderAll(ps), [HEADER]);
    FeedConcat(start, preamble, RenderAll(ps));
    FeedPreamble(start, preamble);
    FeedPackages(start, ps);
    FeedOne(FeedAll(start, RenderAll(ps)), HEADER);
    assert [] + BlocksRead(ps) == BlocksRead(ps);
  }

  lemma {:induction false} ReadExactly(ps: seq<Package>)
    ensures BlocksRead(ps) == BlocksOf(ps) <==> forall i :: 0 <= i < |ps| ==> Undisturbed(ps[i])
    ensures |BlocksRead(ps)| == |BlocksOf(ps)| == |ps|
  {
    if ps != [] {
      UndisturbedExactly(ps[0]);
      ReadExactly(ps[1..]);
      hide Undisturbed, Overwritten, BlockOf;
      var read, written := BlocksRead(ps), BlocksOf(ps);
      assert read[0] == Overwritten(BlockOf(ps[0]), ps[0].others) && written[0] == BlockOf(ps[0]);
      assert read[1..] == BlocksRead(ps[1..]) && written[1..] == BlocksOf(ps[1..]);
      assert forall i :: 0 <= i < |ps| - 1 ==> ps[1..][i] == ps[i + 1];
      assert read == written <==> read[0] == written[0] && read[1..] == written[1..] by {
        assert read == [read[0]] + read[1..] && written == [written[0]] + written[1..];
      }
      assert (forall i :: 0 <= i < |ps| ==> Undisturbed(ps[i])) <==>
             (Undisturbed(ps[0]) && forall i :: 0 <= i < |ps| - 1 ==> Undisturbed(ps[1..][i]));
    }
  }

  /** Whatever else the file holds, the written packages are read back, in order, exactly if no later line disturbs one. */
  lemma BlocksRoundTrip(preamble: seq<string>, ps: seq<Package>)
    requires NoHeader(preamble) && forall i :: 0 <= i < |ps| ==> NoHeader(ps[i].others)
    ensures FeedAll(State([], None), preamble + RenderAll(ps) + [HEADER]).done == BlocksOf(ps) <==>
            forall i :: 0 <= i < |ps| ==> Undisturbed(ps[i])
  {
    FeedFile(preamble, ps);
    ReadExactly(ps);
  }

  lemma {:induction false} FeedPreamble(s: State, lines: seq<string>)
    requires s.current.None? && forall i :: 0 <= i < |lines| ==> lines[i] != HEADER
    ensures FeedAll(s, lines) == s
    decreases |lines|
  {
    if lines != [] {
      assert forall i :: 0 <= i < |lines| - 1 ==> lines[1..][i] == lines[i + 1];
      FeedPreamble(s, lines[1..]);
    }
  }

  lemma {:induction false} BlocksAt(ps: seq<Package>, i: nat)
    requires i < |ps|
    ensures |BlocksOf(ps)| == |ps| && BlocksOf(ps)[i] == BlockOf(ps[i])
    decreases |ps|
  {
    if |ps| > 1 {
      BlocksAt(ps[1..], if i > 0 then i - 1 else 0);
    } else {
      assert ps[1..] == [];
    }
  }

  predicate Wanted(p: Package) { p.source.Some? && REGISTRY <= p.source.value }

  predicate ReadsAs(b: Block, p: Package) {
    Name in b && Version in b && b[Name] == p.name && b[Version] == p.version && (FromRegistry(b) <==> Wanted(p))
  }

  lemma SamePackages(bs: seq<Block>, ps: seq<Package>)
    requires |bs| == |ps| && forall i :: 0 <= i < |ps| ==> ReadsAs(bs[i], ps[i])
    ensures Packages(bs).Some?
    ensures Packages(bs).value == set i | 0 <= i < |ps| && Wanted(ps[i]) :: (ps[i].name, ps[i].version)
  {
    hide FromRegistry, Wanted;
    assert forall i :: 0 <= i < |bs| ==> ReadsAs(bs[i], ps[i]);
  }

  lemma BlockReads(p: Package)
    ensures ReadsAs(BlockOf(p), p)
  {
  }

  lemma {:induction false} BlocksSize(ps: seq<Package>)
    ensures |BlocksOf(ps)| == |ps|
  {
    if ps != [] {
      BlocksSize(ps[1..]);
    }
  }

  /** The package set is exactly name and version of the entries whose source is a registry. */
  lemma RegistryExactly(ps: seq<Package>)
    ensures Packages(BlocksOf(ps)).Some?
    ensures Packages(BlocksOf(ps)).value == set i | 0 <= i < |ps| && Wanted(ps[i]) :: (ps[i].name, ps[i].version)
  {
    hide BlocksOf, BlockOf, ReadsAs, Packages, Wanted;
    BlocksSize(ps);
    forall i | 0 <= i < |ps|
      ensures ReadsAs(BlocksOf(ps)[i], ps[i])
    {
      BlocksAt(ps, i);
      BlockReads(ps[i]);
    }
    SamePackages(BlocksOf(ps), ps);
  }

  // ----- from the text to the set -----

  /** The entry as the parser takes it, later lines included. */
  function AsRead(p: Package): Package {
    var name, version, source := LastSet(p.others, Name), LastSet(p.others, Version), LastSet(p.others, Source);
    Package(if name.Some? then name.value else p.name, if version.Some? then version.value else p.version,
            if source.Some? then source else p.source, p.others)
  }

  lemma BlockAsRead(p: Package)
    ensures BlockOf(AsRead(p)) == Overwritten(BlockOf(p), p.others)
  {
    var b, r := BlockOf(AsRead(p)), Overwritten(BlockOf(p), p.others);
    hide Overwritten, LastSet;
    forall f: Field
      ensures (f in b <==> f in r) && (f in b ==> b[f] == r[f])
    {
      OverwrittenAt(BlockOf(p), p.others, f);
      match f
      case Name =>
      case Version =>
      case Source =>
    }
    assert b.Keys == r.Keys;
  }

  function AllAsRead(ps: seq<Package>): seq<Package> { if ps == [] then [] else [AsRead(ps[0])] + AllAsRead(ps[1..]) }

  lemma {:induction false} BlocksAsRead(ps: seq<Package>)
    ensures BlocksRead(ps) == BlocksOf(AllAsRead(ps))
  {
    if ps != [] {
      BlockAsRead(ps[0]);
      BlocksAsRead(ps[1..]);
      hide AsRead, BlockOf, Overwritten;
      assert AllAsRead(ps)[0] == AsRead(ps[0]) && AllAsRead(ps)[1..] == AllAsRead(ps[1..]);
    }
  }

  /** What an entry adds to the set. */
  function Yield(p: Package): set<(string, string)> { if Wanted(p) then {(p.name, p.version)} else {} }

  function Yields(ps: seq<Package>): set<(string, string)> { if ps == [] then {} else Yield(ps[0]) + Yields(ps[1..]) }

  lemma {:induction false} YieldsSet(ps: seq<Package>)
    ensures Yields(ps) == set i | 0 <= i < |ps| && Wanted(ps[i]) :: (ps[i].name, ps[i].version)
  {
    hide Wanted;
    var all := set i | 0 <= i < |ps| && Wanted(ps[i]) :: (ps[i].name, ps[i].version);
    if ps != [] {
      var rest := ps[1..];
      YieldsSet(rest);
      forall x | x in all
        ensures x in Yields(ps)
      {
        var i :| 0 <= i < |ps| && Wanted(ps[i]) && x == (ps[i].name, ps[i].version);
        if i > 0 {
          assert rest[i - 1] == ps[i];
        }
      }
      forall x | x in Yields(ps)
        ensures x in all
      {
        if x !in Yield(ps[0]) {
          var i :| 0 <= i < |rest| && Wanted(rest[i]) && x == (rest[i].name, rest[i].version);
          assert ps[i + 1] == rest[i];
        }
      }
    }
  }

  /** The packages the parser finds in a lock file. */
  function LockFile(preamble: seq<string>, ps: seq<Package>): Option<set<(string, string)>> {
    Packages(FeedAll(State([], None), preamble + RenderAll(ps) + [HEADER]).done)
  }

  predicate Delimited(preamble: seq<string>, ps: seq<Package>) {
    NoHeader(preamble) && forall i :: 0 <= i < |ps| ==> NoHeader(ps[i].others)
  }

  /** Whatever a lock file holds, the set is that of its entries as read. */
  lemma LockFileReads(preamble: seq<string>, ps: seq<Package>)
    requires Delimited(preamble, ps)
    ensures LockFile(preamble, ps) == Some(Yields(AllAsRead(ps)))
  {
    hide Packages, BlocksOf, Wanted, FeedAll, RenderAll, AllAsRead, BlocksRead, Yields;
    FeedFile(preamble, ps);
    BlocksAsRead(ps);
    RegistryExactly(AllAsRead(ps));
    YieldsSet(AllAsRead(ps));
  }

  /** Later lines do not change what the entry adds. */
  predicate Harmless(p: Package) { Yield(AsRead(p)) == Yield(p) }

  /** An undisturbed entry is harmless; the converse fails for a version that is overwritten outside the registry. */
  lemma UndisturbedHarmless(p: Package)
    requires Undisturbed(p)
    ensures Harmless(p)
  {
    BlockAsRead(p);
    UndisturbedExactly(p);
    hide AsRead, Overwritten, Undisturbed;
    var q := AsRead(p);
    assert BlockOf(q) == BlockOf(p);
    assert q.name == BlockOf(q)[Name] && q.version == BlockOf(q)[Version] && p.name == BlockOf(p)[Name] && p.version == BlockOf(p)[Version];
    assert (q.source.Some? <==> Source in BlockOf(q)) && (p.source.Some? <==> Source in BlockOf(p));
  }

  predicate AllHarmless(ps: seq<Package>) { forall i :: 0 <= i < |ps| ==> Harmless(ps[i]) }

  lemma {:induction false} HarmlessYields(ps: seq<Package>)
    requires AllHarmless(ps)
    ensures Yields(AllAsRead(ps)) == Yields(ps)
  {
    hide AsRead, Yield;
    if ps != [] {
      assert Harmless(ps[0]);
      assert forall i :: 0 <= i < |ps| - 1 ==> ps[1..][i] == ps[i + 1];
      HarmlessYields(ps[1..]);
      assert AllAsRead(ps)[0] == AsRead(ps[0]) && AllAsRead(ps)[1..] == AllAsRead(ps[1..]);
    }
  }

  /** A lock file of harmless entries yields exactly its registry packages. */
  lemma LockFileExactly(preamble: seq<string>, ps: seq<Package>)
    requires Delimited(preamble, ps) && AllHarmless(ps)
    ensures LockFile(preamble, ps) == Some(set i | 0 <= i < |ps| && Wanted(ps[i]) :: (ps[i].name, ps[i].version))
  {
    hide LockFile, Wanted, Harmless, AllAsRead, Yields;
    LockFileReads(preamble, ps);
    HarmlessYields(ps);
    YieldsSet(ps);
  }

  /** Every file in which `p` stands among harmless entries is read right. */
  ghost predicate AlwaysRight(p: Package) {
    forall preamble, before, after :: Delimited(preamble, before + [p] + after) && AllHarmless(before + after) ==>
      LockFile(preamble, before + [p] + after) == Some(Yields(before + [p] + after))
  }

  /** An entry is read right in every such file if and only if it is harmless. */
  lemma HarmlessExactly(p: Package)
    requires NoHeader(p.others)
    ensures AlwaysRight(p) <==> Harmless(p)
  {
    hide LockFile, AsRead, Yield, NoHeader;
    if Harmless(p) {
      forall preamble, before, after | Delimited(preamble, before + [p] + after) && AllHarmless(before + after)
        ensures LockFile(preamble, before + [p] + after) == Some(Yields(before + [p] + after))
      {
        HarmlessAmong(p, before, after);
        LockFileReads(preamble, before + [p] + after);
        HarmlessYields(before + [p] + after);
      }
    } else {
      NoHeaderEmpty();
      var ps := [] + [p] + [];
      assert ps == [p] && [p][1..] == [] && AllHarmless([] + []);
      assert Delimited([], ps);
      LockFileReads([], ps);
      assert [AsRead(p)][1..] == [] && AllAsRead([p]) == [AsRead(p)];
      assert Yields([p]) == Yield(p) && Yields([AsRead(p)]) == Yield(AsRead(p));
    }
  }

  lemma NoHeaderEmpty()
    ensures NoHeader([])
  {
  }

  lemma HarmlessAmong(p: Package, before: seq<Package>, after: seq<Package>)
    requires Harmless(p) && AllHarmless(before + after)
    ensures AllHarmless(before + [p] + after)
  {
    hide Harmless;
    var all, others := before + [p] + after, before + after;
    forall i | 0 <= i < |all|
      ensures Harmless(all[i])
    {
      if i < |before| {
        assert all[i] == others[i];
      } else if i > |before| {
        assert all[i] == others[i - 1];
      }
    }
  }

  const UNUSED: string := "[[patch.unused]]"

  /** The table Cargo writes after the packages for a patch nobody uses is read into the last of them. */
  lemma UnusedPatchOverwrites(preamble: seq<string>, name: string, version: string, source: string, patch: string, at: string)
    requires NoHeader(preamble) && REGISTRY <= source && (patch != name || at != version)
    ensures var p := Package(name, version, Some(source), [UNUSED, Quoted(Name, patch), Quoted(Version, at)]);
      !Undisturbed(p) && !Harmless(p) && NoHeader(p.others) && LockFile(preamble, [p]) == Some({(patch, at)})
  {
    var p := Package(name, version, Some(source), [UNUSED, Quoted(Name, patch), Quoted(Version, at)]);
    QuotedField(Name, patch);
    QuotedField(Version, at);
    UnusedLine();
    hide FieldOf, Quoted;
    UnusedRead(p, patch, at);
    if Undisturbed(p) {
      UndisturbedHarmless(p);
    }
    hide AsRead, LastSet, Undisturbed;
    LockFileReads(preamble, [p]);
    assert [p][1..] == [] && [AsRead(p)][1..] == [];
    assert AllAsRead([p]) == [AsRead(p)] && Yields([AsRead(p)]) == Yield(AsRead(p));
  }

  lemma UnusedLine()
    ensures FieldOf(UNUSED).None? && UNUSED != HEADER
  {
    assert UNUSED[0] == '[' && Lead(Name)[0] == 'n' && Lead(Version)[0] == 'v' && Lead(Source)[0] == 's';
    assert |UNUSED| == 16 && |HEADER| == 11;
  }

  lemma UnusedRead(p: Package, patch: string, at: string)
    requires p.source.Some? && p.others == [UNUSED, Quoted(Name, patch), Quoted(Version, at)]
    requires FieldOf(UNUSED).None? && FieldOf(Quoted(Name, patch)) == Some((Name, patch))
    requires FieldOf(Quoted(Version, at)) == Some((Version, at))
    ensures AsRead(p) == Package(patch, at, p.source, p.others)
  {
    hide FieldOf, Quoted;
    var a, b := Quoted(Name, patch), Quoted(Version, at);
    assert p.others[1..] == [a, b] && [a, b][1..] == [b] && [b][1..] == [];
    assert LastSet([], Name) == None && LastSet([], Version) == None && LastSet([], Source) == None;
    assert LastSet([b], Name) == None && LastSet([b], Version) == Some(at) && LastSet([b], Source) == None;
    assert LastSet([a, b], Name) == Some(patch) && LastSet([a, b], Version) == Some(at) && LastSet([a, b], Source) == None;
  }
}
