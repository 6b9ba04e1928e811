/**
 The offline supply bundle: the manifest builder that turns SHA256SUMS and the
 bundle tree into an inventory, and the verifier that re-checks inventory, tree
 and SHA256SUMS with its own parser.
 */
module SupplyBundle {
  import opened Prelude
  import opened Paths

  datatype Node = Regular(size: nat, digest: string) | Folder | Link | Odd

  /** Every path below the bundle root, relative and slash-separated. */
  type Tree = map<string, Node>

  const SUMS: string := "SHA256SUMS"
  const MAX_BUNDLE_FILES: nat := 32_768
  const MAX_BUNDLE_TOTAL_BYTES: nat := 8_589_934_592
  const MAX_BUNDLE_FILE_BYTES: nat := 4_294_967_296
  const MAX_MANIFEST_BYTES: nat := 8_388_608

  datatype Item = Item(path: string, digest: string, bytes: nat)

  predicate SafeRelative(value: string) {
    value != "" && Utf8Len(value) <= MAX_PATH_BYTES && Canonical(value)
  }

  predicate IsFile(tree: Tree, p: string) { p in tree && tree[p].Regular? }

  function SizeOf(tree: Tree, p: string): nat { if IsFile(tree, p) then tree[p].size else 0 }

  // ----- sums over sets of paths -----

  ghost function Total(tree: Tree, paths: set<string>): nat {
    if paths == {} then 0 else var p :| p in paths; SizeOf(tree, p) + Total(tree, paths - {p})
  }

  lemma TotalPick(tree: Tree, paths: set<string>) returns (q: string)
    requires paths != {}
    ensures q in paths && Total(tree, paths) == SizeOf(tree, q) + Total(tree, paths - {q})
  {
    q :| q in paths && Total(tree, paths) == SizeOf(tree, q) + Total(tree, paths - {q});
  }

  lemma {:induction false} TotalInsert(tree: Tree, paths: set<string>, p: string)
    requires p !in paths
    ensures Total(tree, paths + {p}) == Total(tree, paths) + SizeOf(tree, p)
    decreases |paths|
  {
    hide Total, SizeOf;
    var all := paths + {p};
    var q := TotalPick(tree, all);
    if q == p {
      assert all - {p} == paths;
    } else {
      assert all - {q} == (paths - {q}) + {p};
      TotalInsert(tree, paths - {q}, p);
      assert paths == (paths - {q}) + {q};
      TotalInsert(tree, paths - {q}, q);
    }
  }

  // ----- the two parsers of a checksum line -----

  function SkipSpaces(s: string): string { if s != "" && IsSpace(s[0]) then SkipSpaces(s[1..]) else s }

  function Token(s: string): string { if s == "" || IsSpace(s[0]) then "" else [s[0]] + Token(s[1..]) }

  /** Builder: split at the first run of white space. */
  function SplitOnce(line: string): Option<(string, string)> {
    var s := SkipSpaces(line);
    var first := Token(s);
    var rest := if |first| <= |s| then SkipSpaces(s[|first|..]) else "";
    if first == "" || rest == "" then None else Some((first, rest))
  }

  function BuilderPath(field: string): string { RemovePrefix(RemovePrefix(field, "*"), "./") }

  /** Verifier: digest, a space, a mode character, the path. */
  function MatchLine(line: string): Option<(string, string)> {
    if |line| > 66 && Hex64(line[..64]) && line[64] == ' ' && (line[65] == ' ' || line[65] == '*')
    then Some((line[..64], RemovePrefix(line[66..], "./")))
    else None
  }

  lemma {:induction false} TokenOfHex(d: string, rest: string)
    requires (forall i :: 0 <= i < |d| ==> IsHex(d[i])) && (rest == "" || IsSpace(rest[0]))
    ensures Token(d + rest) == d
  {
    if d == "" {
      assert d + rest == rest;
    } else {
      TokenOfHex(d[1..], rest);
      assert (d + rest)[1..] == d[1..] + rest;
    }
  }

  lemma PrefixRemoved(p: string, rest: string)
    ensures RemovePrefix(p + rest, p) == rest
  {
    assert (p + rest)[..|p|] == p && (p + rest)[|p|..] == rest;
  }

  lemma {:induction false} SkipShortens(s: string)
    ensures |SkipSpaces(s)| <= |s| && (s != "" && IsSpace(s[0]) ==> |SkipSpaces(s)| < |s|)
  {
    if s != "" && IsSpace(s[0]) {
      SkipShortens(s[1..]);
    }
  }

  lemma BuilderPathShortens(field: string)
    ensures |BuilderPath(field)| <= |field| && (field != "" && field[0] == '*' ==> |BuilderPath(field)| < |field|)
  {
    assert field != "" && field[0] == '*' ==> field[..1] == "*";
  }

  /** A checksum line: digest, a space, a mode character, and whatever names the file. */
  function ToolLine(digest: string, mode: char, field: string): string { digest + ([' ', mode] + field) }

  /** The field cannot be mistaken for a mode character or for more white space. */
  predicate Unambiguous(mode: char, field: string) {
    mode == '*' || (field != "" && !IsSpace(field[0]) && field[0] != '*')
  }

  lemma SkipToField(mode: char, field: string)
    requires mode == ' ' || mode == '*'
    ensures SkipSpaces([' ', mode] + field) == if mode == '*' then "*" + field else SkipSpaces(field)
  {
    var tail := [' ', mode] + field;
    assert tail[1..] == [mode] + field && tail[1..][1..] == field;
    assert [mode] + field == if mode == '*' then "*" + field else " " + field;
    assert SkipSpaces(tail) == SkipSpaces([mode] + field);
  }

  /** Builder's reading of such a line, up to the handling of the path. */
  lemma BuilderReads(digest: string, mode: char, field: string)
    requires Hex64(digest) && (mode == ' ' || mode == '*')
    ensures var rest := if mode == '*' then "*" + field else SkipSpaces(field);
      SplitOnce(ToolLine(digest, mode, field)) == if rest == "" then None else Some((digest, rest))
  {
    var line, tail := ToolLine(digest, mode, field), [' ', mode] + field;
    TokenOfHex(digest, tail);
    assert IsHex(line[0]) && SkipSpaces(line) == line && line[|digest|..] == tail;
    SkipToField(mode, field);
    hide Token, SkipSpaces, Hex64;
  }

  lemma VerifierReads(digest: string, mode: char, field: string)
    requires Hex64(digest) && (mode == ' ' || mode == '*')
    ensures MatchLine(ToolLine(digest, mode, field)) ==
      if field == "" then None else Some((digest, RemovePrefix(field, "./")))
  {
    var line := ToolLine(digest, mode, field);
    assert line[..64] == digest && line[66..] == field && line[64] == ' ' && line[65] == mode;
  }

  /** Digest and path as the builder reads them. */
  function BuilderLine(line: string): Option<(string, string)> {
    var f := SplitOnce(line); if f.None? then None else Some((f.value.0, BuilderPath(f.value.1)))
  }

  /** On checksum lines the parsers read the same digest and path exactly when the field is unambiguous. */
  lemma ParsersAgree(digest: string, mode: char, field: string)
    requires Hex64(digest) && (mode == ' ' || mode == '*') && field != ""
    ensures var line := ToolLine(digest, mode, field);
      BuilderLine(line) == MatchLine(line) <==> Unambiguous(mode, field)
    ensures var line := ToolLine(digest, mode, field);
      !Unambiguous(mode, field) && BuilderLine(line).Some? ==> |BuilderLine(line).value.1| < |MatchLine(line).value.1|
  {
    BuilderReads(digest, mode, field);
    VerifierReads(digest, mode, field);
    hide SplitOnce, MatchLine, ToolLine;
    if mode == '*' {
      PrefixRemoved("*", field);
    } else {
      SkipShortens(field);
      BuilderPathShortens(SkipSpaces(field));
      assert field[0] != '*' ==> field[..1] != "*";
      assert field[0] != '.' && |field| >= 2 ==> field[..2] != "./";
    }
  }

  /** The verifier's format with an unambiguous field: what both sides can be given. */
  predicate Common(line: string) {
    |line| > 66 && Hex64(line[..64]) && line[64] == ' ' && (line[65] == ' ' || line[65] == '*') &&
    Unambiguous(line[65], line[66..])
  }

  /** On every line whatever: both parsers read it, and read the same, exactly when it is in the common form. */
  lemma ReadAlike(line: string)
    ensures BuilderLine(line).Some? && BuilderLine(line) == MatchLine(line) <==> Common(line)
    ensures BuilderLine(line).Some? && MatchLine(line).Some? && !Common(line) ==>
      |BuilderLine(line).value.1| < |MatchLine(line).value.1|
  {
    if MatchLine(line).Some? {
      var digest, mode, field := line[..64], line[65], line[66..];
      assert line == ToolLine(digest, mode, field);
      ParsersAgree(digest, mode, field);
    }
    hide SplitOnce, BuilderPath;
  }

  /** What the bundle script writes: two spaces and the bare path, or the same with a leading "./". */
  lemma ScriptLines(digest: string, path: string)
    requires Hex64(digest) && path != ""
    ensures Common(digest + "  " + path) <==> !IsSpace(path[0]) && path[0] != '*'
    ensures Common(digest + "  ./" + path) && Common(digest + " *" + path)
  {
    var bare, dotted, binary := digest + "  " + path, digest + "  ./" + path, digest + " *" + path;
    assert bare[..64] == digest && bare[66..] == path;
    assert dotted[..64] == digest && dotted[66] == '.' && dotted[66..][0] == '.';
    assert binary[..64] == digest && binary[66..] == path;
  }

  // ----- the builder -----

  function LinePath(line: string): string {
    var f := SplitOnce(line); if f.None? then "" else BuilderPath(f.value.1)
  }

  function LineItem(line: string, tree: Tree): Item {
    var f := SplitOnce(line);
    Item(LinePath(line), "sha256:" + (if f.None? then "" else f.value.0), SizeOf(tree, LinePath(line)))
  }

  predicate LineOk(line: string, tree: Tree) {
    && SplitOnce(line).Some? && Hex64(SplitOnce(line).value.0) && SafeRelative(LinePath(line))
    && IsFile(tree, LinePath(line)) && 1 <= SizeOf(tree, LinePath(line)) <= MAX_BUNDLE_FILE_BYTES
  }

  function Items(lines: seq<string>, tree: Tree): seq<Item> {
    if lines == [] then [] else Items(lines[..|lines| - 1], tree) + [LineItem(lines[|lines| - 1], tree)]
  }

  function Listed(lines: seq<string>): set<string> { set i | 0 <= i < |lines| :: LinePath(lines[i]) }

  predicate Unrepeated(lines: seq<string>) {
    forall i, j :: 0 <= i < j < |lines| ==> LinePath(lines[i]) != LinePath(lines[j])
  }

  /** Regular files of the bundle other than the checksum file itself. */
  function Payload(tree: Tree): set<string> { set p | p in tree && tree[p].Regular? && p != SUMS }

  predicate NoSpecial(tree: Tree) { forall p :: p in tree ==> tree[p].Regular? || tree[p].Folder? }

  ghost predicate BuilderAccepts(lines: seq<string>, tree: Tree) {
    && IsFile(tree, SUMS) && tree[SUMS].size <= MAX_MANIFEST_BYTES
    && (forall i :: 0 <= i < |lines| ==> LineOk(lines[i], tree)) && Unrepeated(lines)
    && 1 <= |lines| <= MAX_BUNDLE_FILES && Total(tree, Listed(lines)) <= MAX_BUNDLE_TOTAL_BYTES
    && NoSpecial(tree) && Payload(tree) == Listed(lines)
  }

  lemma ListedSnoc(lines: seq<string>, i: nat)
    requires i < |lines|
    ensures Listed(lines[..i + 1]) == Listed(lines[..i]) + {LinePath(lines[i])}
  {
    var more := lines[..i + 1];
    assert more == lines[..i] + [lines[i]];
    forall p | p in Listed(lines[..i]) + {LinePath(lines[i])}
      ensures p in Listed(more)
    {
      if p == LinePath(lines[i]) {
        assert more[i] == lines[i];
      } else {
        var k :| 0 <= k < i && LinePath(lines[..i][k]) == p;
        assert more[k] == lines[..i][k];
      }
    }
    forall p | p in Listed(more)
      ensures p in Listed(lines[..i]) + {LinePath(lines[i])}
    {
      var k :| 0 <= k < |more| && LinePath(more[k]) == p;
      if k < i {
        assert lines[..i][k] == more[k];
      }
    }
  }

  lemma {:induction false} ItemsAt(lines: seq<string>, tree: Tree, i: nat)
    requires i < |lines|
    ensures |Items(lines, tree)| == |lines| && Items(lines, tree)[i] == LineItem(lines[i], tree)
    decreases |lines|
  {
    if |lines| > 1 {
      ItemsAt(lines[..|lines| - 1], tree, if i < |lines| - 1 then i else 0);
    } else {
      assert lines[..0] == [];
    }
  }

  /** The first `i` lines are acceptable and name different files. */
  predicate PrefixOk(lines: seq<string>, tree: Tree, i: nat)
    requires i <= |lines|
  {
    && (forall j :: 0 <= j < i ==> LineOk(lines[j], tree))
    && (forall j, k :: 0 <= j < k < i ==> LinePath(lines[j]) != LinePath(lines[k]))
  }

  lemma PrefixStep(lines: seq<string>, tree: Tree, i: nat)
    requires i < |lines| && PrefixOk(lines, tree, i)
    ensures PrefixOk(lines, tree, i + 1) <==> LineOk(lines[i], tree) && LinePath(lines[i]) !in Listed(lines[..i])
    ensures Items(lines[..i + 1], tree) == Items(lines[..i], tree) + [LineItem(lines[i], tree)]
    ensures Listed(lines[..i + 1]) == Listed(lines[..i]) + {LinePath(lines[i])}
    ensures LinePath(lines[i]) !in Listed(lines[..i]) ==>
      Total(tree, Listed(lines[..i + 1])) == Total(tree, Listed(lines[..i])) + SizeOf(tree, LinePath(lines[i]))
  {
    hide LineOk, LinePath, LineItem;
    ListedSnoc(lines, i);
    assert lines[..i + 1][..i] == lines[..i];
    assert forall j :: 0 <= j < i ==> lines[..i][j] == lines[j];
    if LinePath(lines[i]) !in Listed(lines[..i]) {
      TotalInsert(tree, Listed(lines[..i]), LinePath(lines[i]));
      assert forall j :: 0 <= j < i ==> LinePath(lines[..i][j]) in Listed(lines[..i]);
    } else {
      var j :| 0 <= j < i && LinePath(lines[..i][j]) == LinePath(lines[i]);
      assert LinePath(lines[j]) == LinePath(lines[i]);
    }
  }

  lemma {:induction false} PrefixWeaken(lines: seq<string>, tree: Tree, i: nat)
    requires i <= |lines| && !PrefixOk(lines, tree, i)
    ensures !PrefixOk(lines, tree, |lines|)
  {
    hide LineOk, LinePath;
  }

  lemma NothingRead(lines: seq<string>, tree: Tree)
    ensures PrefixOk(lines, tree, 0) && Items(lines[..0], tree) == [] && Listed(lines[..0]) == {} && Total(tree, {}) == 0
  {
  }

  /** The checksum loop: the inventory, the set of paths and the bytes they add up to. */
  method ReadSums(lines: seq<string>, tree: Tree) returns (ok: bool, items: seq<Item>, paths: set<string>, total: nat)
    ensures ok <==> PrefixOk(lines, tree, |lines|)
    ensures ok ==> items == Items(lines, tree) && |items| == |lines| && paths == Listed(lines) && total == Total(tree, paths)
  {
    hide SafeRelative, SplitOnce, BuilderPath, Hex64, Items, Listed, Total, PrefixOk;
    items, paths, total := [], {}, 0;
    var i := 0;
    NothingRead(lines, tree);
    while i < |lines|
      invariant 0 <= i <= |lines| && PrefixOk(lines, tree, i)
      invariant items == Items(lines[..i], tree) && |items| == i
      invariant paths == Listed(lines[..i]) && total == Total(tree, paths)
    {
      var line := lines[i];
      PrefixStep(lines, tree, i);
      if !PrefixOk(lines, tree, i + 1) {
        PrefixWeaken(lines, tree, i + 1);
      }
      var fields := SplitOnce(line);
      if fields.None? {
        return false, [], {}, 0;
      }
      var digest, path := fields.value.0, BuilderPath(fields.value.1);
      if !SafeRelative(path) || path in paths || !Hex64(digest) || !IsFile(tree, path)
         || tree[path].size < 1 || tree[path].size > MAX_BUNDLE_FILE_BYTES {
        return false, [], {}, 0;
      }
      paths := paths + {path};
      total := total + tree[path].size;
      items := items + [Item(path, "sha256:" + digest, tree[path].size)];
      i := i + 1;
    }
    assert lines[..i] == lines;
    ok := true;
  }

  /** The checksum loop, then the closure over the tree. */
  method BuildInventory(lines: seq<string>, tree: Tree) returns (r: Option<seq<Item>>)
    ensures r.Some? <==> BuilderAccepts(lines, tree)
    ensures r.Some? ==> r.value == Items(lines, tree)
  {
    hide LineOk, LinePath, Items, Listed, Total, Payload, NoSpecial;
    if !IsFile(tree, SUMS) || tree[SUMS].size > MAX_MANIFEST_BYTES {
      return None;
    }
    var ok, items, paths, total := ReadSums(lines, tree);
    if !ok {
      return None;
    }
    if |items| == 0 || |items| > MAX_BUNDLE_FILES || total > MAX_BUNDLE_TOTAL_BYTES {
      return None;
    }
    var actual := CollectPayload(tree);
    if actual.None? || actual.value != paths {
      return None;
    }
    return Some(items);
  }

  /** Walk the tree; a link or special file anywhere refuses the bundle. */
  method CollectPayload(tree: Tree) returns (r: Option<set<string>>)
    ensures r == if NoSpecial(tree) then Some(Payload(tree)) else None
  {
    var todo, actual := tree.Keys, {};
    while todo != {}
      invariant todo <= tree.Keys
      invariant forall p :: p in tree && p !in todo ==> tree[p].Regular? || tree[p].Folder?
      invariant actual == Payload(tree) - todo
      decreases |todo|
    {
      var p :| p in todo;
      if !tree[p].Regular? && !tree[p].Folder? {
        return None;
      }
      if tree[p].Regular? && p != SUMS {
        actual := actual + {p};
      }
      todo := todo - {p};
    }
    assert actual == Payload(tree);
    return Some(actual);
  }

  // ----- the verifier -----

  function ItemPaths(items: seq<Item>): set<string> { set i | 0 <= i < |items| :: items[i].path }

  /** Payload files with an acceptable name, and those of them that can be read within the size bound. */
  function ActualFiles(tree: Tree): set<string> { set p | p in Payload(tree) && SafeRelative(p) }

  function Snapshots(tree: Tree): set<string> { set p | p in ActualFiles(tree) && Fits(tree, p) }

  predicate PathsSafe(items: seq<Item>) { forall i :: 0 <= i < |items| ==> SafeRelative(items[i].path) }

  predicate PathsUnique(items: seq<Item>) { |items| == |ItemPaths(items)| }

  predicate StructureSafe(tree: Tree) {
    NoSpecial(tree) && ActualFiles(tree) == Payload(tree) && Snapshots(tree) == ActualFiles(tree)
  }

  ghost predicate ResourcesBounded(tree: Tree) {
    && 0 < |ActualFiles(tree)| <= MAX_BUNDLE_FILES && Snapshots(tree) == ActualFiles(tree)
    && 0 < Total(tree, Snapshots(tree)) <= MAX_BUNDLE_TOTAL_BYTES
    && (forall p :: p in Snapshots(tree) ==> 0 < SizeOf(tree, p) <= MAX_BUNDLE_FILE_BYTES)
  }

  predicate FileSetExact(items: seq<Item>, tree: Tree) { ItemPaths(items) == ActualFiles(tree) }

  predicate FileExact(item: Item, tree: Tree, snapshots: set<string>) {
    item.path in snapshots && IsFile(tree, item.path) &&
    tree[item.path].size == item.bytes && tree[item.path].digest == item.digest
  }

  ghost predicate AllFilesExact(items: seq<Item>, tree: Tree) {
    && StructureSafe(tree) && PathsSafe(items) && PathsUnique(items) && ResourcesBounded(tree) && FileSetExact(items, tree)
    && forall i :: 0 <= i < |items| ==> FileExact(items[i], tree, Snapshots(tree))
  }

  predicate PlacedWell(tree: Tree, p: string)
    requires p in tree
  {
    tree[p].Folder? || (tree[p].Regular? && (p == SUMS || SafeRelative(p)))
  }

  /** The verifier's own walk of the tree. */
  method WalkBundle(tree: Tree) returns (safe: bool, actual: set<string>)
    ensures actual == ActualFiles(tree) && (safe <==> NoSpecial(tree) && ActualFiles(tree) == Payload(tree))
  {
    hide SafeRelative;
    safe, actual := true, {};
    var todo := tree.Keys;
    while todo != {}
      invariant todo <= tree.Keys && actual == ActualFiles(tree) - todo
      invariant safe <==> forall p :: p in tree && p !in todo ==> PlacedWell(tree, p)
      decreases |todo|
    {
      var p :| p in todo;
      todo := todo - {p};
      if !tree[p].Regular? && !tree[p].Folder? {
        assert !PlacedWell(tree, p);
        safe := false;
        continue;
      }
      if tree[p].Regular? && p != SUMS {
        if !SafeRelative(p) {
          assert !PlacedWell(tree, p);
          safe := false;
          continue;
        }
        actual := actual + {p};
      }
    }
    assert actual == ActualFiles(tree);
    WalkVerdict(tree);
  }

  lemma WalkVerdict(tree: Tree)
    ensures (forall p :: p in tree ==> PlacedWell(tree, p)) <==> NoSpecial(tree) && ActualFiles(tree) == Payload(tree)
  {
    hide SafeRelative;
    if NoSpecial(tree) && ActualFiles(tree) == Payload(tree) {
      forall p | p in tree
        ensures PlacedWell(tree, p)
      {
        assert tree[p].Regular? && p != SUMS ==> p in Payload(tree) && p in ActualFiles(tree);
      }
    }
    if forall p :: p in tree ==> PlacedWell(tree, p) {
      forall p | p in Payload(tree)
        ensures p in ActualFiles(tree)
      {
        assert PlacedWell(tree, p);
      }
      forall p | p in tree
        ensures tree[p].Regular? || tree[p].Folder?
      {
        assert PlacedWell(tree, p);
      }
      assert ActualFiles(tree) == Payload(tree);
    }
  }

  predicate Fits(tree: Tree, p: string) { 1 <= SizeOf(tree, p) <= MAX_BUNDLE_FILE_BYTES }

  /** Hash what was found; an empty file or one over the bound cannot be read. */
  method SnapshotFiles(tree: Tree, actual: set<string>) returns (safe: bool, snapshots: set<string>)
    ensures snapshots == set p | p in actual && Fits(tree, p)
    ensures safe <==> snapshots == actual
  {
    hide Fits;
    safe, snapshots := true, {};
    var todo := actual;
    while todo != {}
      invariant todo <= actual
      invariant forall p :: p in snapshots <==> p in actual && p !in todo && Fits(tree, p)
      invariant safe <==> forall p :: p in actual && p !in todo ==> Fits(tree, p)
      decreases |todo|
    {
      var p :| p in todo;
      todo := todo - {p};
      if Fits(tree, p) {
        snapshots := snapshots + {p};
      } else {
        safe := false;
      }
    }
  }

  datatype Inventory = Inventory(valid: bool, digests: map<string, string>)

  /** Re-reading of SHA256SUMS: bad, repeated or self-referring lines are skipped and remembered. */
  function Reread(lines: seq<string>): Inventory {
    if lines == [] then Inventory(true, map[])
    else
      var inv, m := Reread(lines[..|lines| - 1]), MatchLine(lines[|lines| - 1]);
      if m.None? || !SafeRelative(m.value.1) || m.value.1 in inv.digests || m.value.1 == SUMS
      then inv.(valid := false)
      else inv.(digests := inv.digests[m.value.1 := "sha256:" + m.value.0])
  }

  method RereadInventory(lines: seq<string>) returns (inv: Inventory)
    ensures inv == Reread(lines)
  {
    inv := Inventory(true, map[]);
    assert lines[..0] == [];
    for i := 0 to |lines|
      invariant inv == Reread(lines[..i])
    {
      assert lines[..i + 1][..i] == lines[..i];
      var m := MatchLine(lines[i]);
      if m.None? {
        inv := inv.(valid := false);
        continue;
      }
      var relative := m.value.1;
      if !SafeRelative(relative) || relative in inv.digests || relative == SUMS {
        inv := inv.(valid := false);
        continue;
      }
      inv := inv.(digests := inv.digests[relative := "sha256:" + m.value.0]);
    }
    assert lines[..|lines|] == lines;
  }

  function Expected(items: seq<Item>): map<string, string> {
    if items == [] then map[] else Expected(items[..|items| - 1])[items[|items| - 1].path := items[|items| - 1].digest]
  }

  method TotalOf(tree: Tree, paths: set<string>) returns (total: nat)
    ensures total == Total(tree, paths)
  {
    total := 0;
    ghost var done: set<string> := {};
    var todo := paths;
    while todo != {}
      invariant todo <= paths && done == paths - todo && total == Total(tree, done)
      decreases |todo|
    {
      var p :| p in todo;
      TotalInsert(tree, done, p);
      todo, done, total := todo - {p}, done + {p}, total + SizeOf(tree, p);
      assert done == paths - todo;
    }
    assert done == paths;
  }

  method CheckFiles(items: seq<Item>, tree: Tree, snapshots: set<string>) returns (ok: bool)
    requires forall p :: p in snapshots ==> IsFile(tree, p)
    ensures ok <==> forall i :: 0 <= i < |items| ==> FileExact(items[i], tree, snapshots)
  {
    for i := 0 to |items|
      invariant forall j :: 0 <= j < i ==> FileExact(items[j], tree, snapshots)
    {
      var item := items[i];
      if item.path !in snapshots || tree[item.path].size != item.bytes || tree[item.path].digest != item.digest {
        return false;
      }
    }
    return true;
  }

  datatype BundleChecks = BundleChecks(
    pathsSafe: bool, pathsUnique: bool, structureSafe: bool, fileSetExact: bool, resourceBounds: bool,
    allFilesExact: bool, inventoryExact: bool)

  /** The checksum file as the verifier opens it. */
  predicate SumsReadable(tree: Tree) { IsFile(tree, SUMS) && 0 < tree[SUMS].size <= MAX_MANIFEST_BYTES }

  /** Each of the verifier's bundle checks by what it means. */
  ghost function ChecksOf(items: seq<Item>, lines: seq<string>, tree: Tree): BundleChecks {
    BundleChecks(PathsSafe(items), PathsUnique(items), StructureSafe(tree), FileSetExact(items, tree), ResourcesBounded(tree),
                 AllFilesExact(items, tree), SumsReadable(tree) && Reread(lines) == Inventory(true, Expected(items)))
  }

  /** The bundle part of the verifier on a manifest's `items` and the lines of its checksum file. */
  method VerifyBundle(items: seq<Item>, lines: seq<string>, tree: Tree) returns (c: BundleChecks)
    ensures c == ChecksOf(items, lines, tree)
  {
    hide SafeRelative, Reread, Expected, Total;
    var safe, actual := WalkBundle(tree);
    var whole, snapshots := SnapshotFiles(tree, actual);
    assert snapshots == Snapshots(tree);
    var total := TotalOf(tree, snapshots);
    var bounded := 0 < |actual| <= MAX_BUNDLE_FILES && snapshots == actual && 0 < total <= MAX_BUNDLE_TOTAL_BYTES
                   && forall p :: p in snapshots ==> 0 < SizeOf(tree, p) <= MAX_BUNDLE_FILE_BYTES;
    var fileSet := ItemPaths(items) == actual;
    var files := CheckFiles(items, tree, snapshots);
    var inv := Inventory(false, map[]);
    if SumsReadable(tree) {
      inv := RereadInventory(lines);
    }
    c := BundleChecks(PathsSafe(items), PathsUnique(items), safe && whole, fileSet, bounded,
                      safe && whole && PathsSafe(items) && PathsUnique(items) && bounded && fileSet && files,
                      inv == Inventory(true, Expected(items)));
  }

  // ----- agreement -----

  lemma ItemPathsListed(lines: seq<string>, tree: Tree)
    ensures ItemPaths(Items(lines, tree)) == Listed(lines)
  {
    hide LinePath, SplitOnce, Items;
    var items := Items(lines, tree);
    forall i | 0 <= i < |lines|
      ensures |items| == |lines| && items[i].path == LinePath(lines[i])
    {
      ItemsAt(lines, tree, i);
    }
    if lines == [] {
      NoItems(tree);
    } else {
      ItemsAt(lines, tree, 0);
    }
    forall p | p in Listed(lines)
      ensures p in ItemPaths(items)
    {
      var i :| 0 <= i < |lines| && LinePath(lines[i]) == p;
      assert items[i].path == p;
    }
    forall p | p in ItemPaths(items)
      ensures p in Listed(lines)
    {
      var i :| 0 <= i < |items| && items[i].path == p;
      assert LinePath(lines[i]) == p;
    }
  }

  lemma NoItems(tree: Tree)
    ensures Items([], tree) == []
  {
  }

  lemma {:induction false} ListedSize(lines: seq<string>)
    requires Unrepeated(lines)
    ensures |Listed(lines)| == |lines|
  {
    hide LinePath;
    if lines != [] {
      var n := |lines| - 1;
      assert forall i :: 0 <= i < n ==> lines[..n][i] == lines[i];
      ListedSize(lines[..n]);
      ListedSnoc(lines, n);
      assert lines[..n + 1] == lines;
      assert LinePath(lines[n]) !in Listed(lines[..n]);
    }
  }

  predicate AllCommon(lines: seq<string>) { forall i :: 0 <= i < |lines| ==> Common(lines[i]) }

  lemma BuilderLineIs(line: string, tree: Tree)
    requires LineOk(line, tree)
    ensures BuilderLine(line) == Some((SplitOnce(line).value.0, LinePath(line)))
  {
  }

  lemma RereadStep(lines: seq<string>, tree: Tree)
    requires lines != []
    requires var line := lines[|lines| - 1]; LineOk(line, tree) && Common(line) && LinePath(line) != SUMS
    requires Reread(lines[..|lines| - 1]) == Inventory(true, Expected(Items(lines[..|lines| - 1], tree)))
    requires LinePath(lines[|lines| - 1]) !in Expected(Items(lines[..|lines| - 1], tree))
    ensures Reread(lines) == Inventory(true, Expected(Items(lines, tree)))
    ensures Expected(Items(lines, tree)).Keys == Expected(Items(lines[..|lines| - 1], tree)).Keys + {LinePath(lines[|lines| - 1])}
  {
    var n := |lines| - 1;
    var before := Items(lines[..n], tree);
    BuilderLineIs(lines[n], tree);
    ReadAlike(lines[n]);
    assert Items(lines, tree)[..|before|] == before;
    hide SplitOnce, MatchLine, SafeRelative, Common;
  }

  lemma {:induction false} RereadAgrees(lines: seq<string>, tree: Tree)
    requires (forall i :: 0 <= i < |lines| ==> LineOk(lines[i], tree) && LinePath(lines[i]) != SUMS)
    requires AllCommon(lines) && Unrepeated(lines)
    ensures Reread(lines) == Inventory(true, Expected(Items(lines, tree)))
    ensures Expected(Items(lines, tree)).Keys == Listed(lines)
  {
    hide LineOk, LinePath, Common;
    if lines != [] {
      var n := |lines| - 1;
      assert forall i :: 0 <= i < n ==> lines[..n][i] == lines[i];
      RereadAgrees(lines[..n], tree);
      ListedSnoc(lines, n);
      assert lines[..n + 1] == lines;
      assert LinePath(lines[n]) !in Listed(lines[..n]);
      assert LineOk(lines[n], tree) && Common(lines[n]);
      hide Reread, Expected, Items, Listed;
      RereadStep(lines, tree);
    }
  }

  // ----- a line out of the common form is always noticed -----

  function ReadPath(line: string): string {
    var m := MatchLine(line); if m.None? then "" else m.value.1
  }

  /** What a valid re-reading has seen: every line read, no path twice, and the paths are its keys. */
  ghost predicate ReadWhole(lines: seq<string>, keys: set<string>) {
    && (forall i :: 0 <= i < |lines| ==> MatchLine(lines[i]).Some? && ReadPath(lines[i]) in keys)
    && (forall i, j :: 0 <= i < j < |lines| ==> ReadPath(lines[i]) != ReadPath(lines[j]))
  }

  lemma {:induction false} ValidReread(lines: seq<string>)
    ensures Reread(lines).valid ==> ReadWhole(lines, Reread(lines).digests.Keys)
  {
    hide MatchLine, SafeRelative;
    if lines != [] {
      var n := |lines| - 1;
      ValidReread(lines[..n]);
      assert forall i :: 0 <= i < n ==> lines[..n][i] == lines[i];
    }
  }

  lemma {:induction false} ExpectedKeys(items: seq<Item>)
    ensures Expected(items).Keys == ItemPaths(items)
  {
    if items != [] {
      var n := |items| - 1;
      ExpectedKeys(items[..n]);
      assert forall i :: 0 <= i < n ==> items[..n][i] == items[i];
      assert ItemPaths(items) == ItemPaths(items[..n]) + {items[n].path} by {
        forall p | p in ItemPaths(items[..n])
          ensures p in ItemPaths(items)
        {
          var i :| 0 <= i < n && items[..n][i].path == p;
          assert items[i].path == p;
        }
        forall p | p in ItemPaths(items)
          ensures p in ItemPaths(items[..n]) + {items[n].path}
        {
          var i :| 0 <= i < |items| && items[i].path == p;
          assert i < n ==> items[..n][i].path == p;
        }
      }
    }
  }

  /** Among the lines out of the common form, one whose path as re-read is longest. */
  lemma {:induction false} LongestOdd(lines: seq<string>, n: nat) returns (m: nat)
    requires n <= |lines| && exists i :: 0 <= i < n && !Common(lines[i])
    ensures m < n && !Common(lines[m])
    ensures forall i :: 0 <= i < n && !Common(lines[i]) ==> |ReadPath(lines[i])| <= |ReadPath(lines[m])|
  {
    hide Common, ReadPath;
    if exists i :: 0 <= i < n - 1 && !Common(lines[i]) {
      m := LongestOdd(lines, n - 1);
      if !Common(lines[n - 1]) && |ReadPath(lines[n - 1])| > |ReadPath(lines[m])| {
        m := n - 1;
      }
    } else {
      m := n - 1;
    }
  }

  lemma OddRead(line: string, tree: Tree)
    requires LineOk(line, tree) && MatchLine(line).Some?
    ensures if Common(line) then LinePath(line) == ReadPath(line) else |LinePath(line)| < |ReadPath(line)|
  {
    BuilderLineIs(line, tree);
    ReadAlike(line);
    hide MatchLine, SplitOnce, BuilderPath, Common;
  }

  lemma ReadOnce(lines: seq<string>, keys: set<string>, m: nat, k: nat)
    requires ReadWhole(lines, keys) && m < |lines| && k < |lines|
    ensures MatchLine(lines[k]).Some? && ReadPath(lines[m]) in keys
    ensures ReadPath(lines[m]) == ReadPath(lines[k]) ==> m == k
  {
    hide MatchLine, ReadPath;
  }

  lemma ListedBy(lines: seq<string>, p: string) returns (k: nat)
    requires p in Listed(lines)
    ensures k < |lines| && LinePath(lines[k]) == p
  {
    hide LinePath;
    k :| 0 <= k < |lines| && LinePath(lines[k]) == p;
  }

  /** Misread paths cannot make up for each other: the longest one has no counterpart. */
  lemma OddLineNoticed(lines: seq<string>, tree: Tree, keys: set<string>)
    requires (forall i :: 0 <= i < |lines| ==> LineOk(lines[i], tree)) && !AllCommon(lines)
    ensures !(ReadWhole(lines, keys) && keys == Listed(lines))
  {
    hide LineOk, MatchLine, LinePath, ReadPath, Common, ReadWhole, Listed;
    var m := LongestOdd(lines, |lines|);
    if ReadWhole(lines, keys) && keys == Listed(lines) {
      ReadOnce(lines, keys, m, m);
      var k := ListedBy(lines, ReadPath(lines[m]));
      ReadOnce(lines, keys, m, k);
      OddRead(lines[k], tree);
      assert false;
    }
  }

  /** The verifier's re-reading is the builder's inventory exactly when every line is in the common form. */
  lemma RereadExactly(lines: seq<string>, tree: Tree)
    requires (forall i :: 0 <= i < |lines| ==> LineOk(lines[i], tree) && LinePath(lines[i]) != SUMS)
    requires Unrepeated(lines)
    ensures Reread(lines) == Inventory(true, Expected(Items(lines, tree))) <==> AllCommon(lines)
  {
    hide LineOk, LinePath, Common, Reread, Expected, Items, ItemPaths, Listed;
    if AllCommon(lines) {
      RereadAgrees(lines, tree);
    } else {
      ValidReread(lines);
      ExpectedKeys(Items(lines, tree));
      ItemPathsListed(lines, tree);
      OddLineNoticed(lines, tree, Reread(lines).digests.Keys);
    }
  }

  lemma PayloadIsListed(lines: seq<string>, tree: Tree)
    requires BuilderAccepts(lines, tree)
    ensures ActualFiles(tree) == Payload(tree) == Snapshots(tree) == Listed(lines)
    ensures forall p :: p in Listed(lines) ==> IsFile(tree, p) && 1 <= SizeOf(tree, p) <= MAX_BUNDLE_FILE_BYTES
  {
    hide SafeRelative, SplitOnce, BuilderPath;
    forall p | p in Payload(tree)
      ensures SafeRelative(p) && IsFile(tree, p) && 1 <= SizeOf(tree, p) <= MAX_BUNDLE_FILE_BYTES
    {
      var i :| 0 <= i < |lines| && LinePath(lines[i]) == p;
      assert LineOk(lines[i], tree);
    }
  }

  lemma TotalPositive(tree: Tree, paths: set<string>, p: string)
    requires p in paths && SizeOf(tree, p) > 0
    ensures Total(tree, paths) > 0
  {
    TotalInsert(tree, paths - {p}, p);
    assert paths == (paths - {p}) + {p};
  }

  /** The checks that look at the tree and the inventory, given what the builder established. */
  lemma TreeChecks(lines: seq<string>, tree: Tree)
    requires BuilderAccepts(lines, tree)
    ensures var items := Items(lines, tree);
      PathsSafe(items) && PathsUnique(items) && StructureSafe(tree) && ResourcesBounded(tree) && FileSetExact(items, tree)
    ensures |Items(lines, tree)| == |lines|
    ensures forall i :: 0 <= i < |lines| ==>
      var item := Items(lines, tree)[i]; item.path in Snapshots(tree) && SizeOf(tree, item.path) == item.bytes
  {
    hide SafeRelative, SplitOnce, BuilderPath, Items;
    var items := Items(lines, tree);
    forall i | 0 <= i < |lines|
      ensures |items| == |lines| && items[i] == LineItem(lines[i], tree) && LineOk(lines[i], tree)
    {
      ItemsAt(lines, tree, i);
    }
    ItemPathsListed(lines, tree);
    ListedSize(lines);
    PayloadIsListed(lines, tree);
    assert LinePath(lines[0]) in Listed(lines);
    TotalPositive(tree, Listed(lines), LinePath(lines[0]));
    hide LineOk;
    forall i | 0 <= i < |lines|
      ensures items[i].path in Snapshots(tree) && SizeOf(tree, items[i].path) == items[i].bytes
    {
      assert LinePath(lines[i]) in Listed(lines);
    }
  }

  lemma NotItself(lines: seq<string>, tree: Tree)
    requires BuilderAccepts(lines, tree)
    ensures forall i :: 0 <= i < |lines| ==> LineOk(lines[i], tree) && LinePath(lines[i]) != SUMS
  {
    hide LineOk, LinePath;
    forall i | 0 <= i < |lines|
      ensures LinePath(lines[i]) != SUMS
    {
      assert LinePath(lines[i]) in Listed(lines);
    }
  }

  lemma ExactIffTrue(items: seq<Item>, tree: Tree)
    requires PathsSafe(items) && PathsUnique(items) && StructureSafe(tree) && ResourcesBounded(tree) && FileSetExact(items, tree)
    requires forall i :: 0 <= i < |items| ==> items[i].path in Snapshots(tree) && SizeOf(tree, items[i].path) == items[i].bytes
    ensures AllFilesExact(items, tree) <==>
      forall i :: 0 <= i < |items| ==> IsFile(tree, items[i].path) && tree[items[i].path].digest == items[i].digest
  {
    hide PathsSafe, PathsUnique, ResourcesBounded, SafeRelative;
  }

  /**
   A bundle the builder accepts passes every tree check of the verifier on the
   unchanged tree.  The re-read inventory matches if and only if every line is in
   the common form, and the digest check passes if and only if the digests are true.
   */
  lemma BuilderSatisfiesVerifier(lines: seq<string>, tree: Tree)
    requires BuilderAccepts(lines, tree)
    ensures var items := Items(lines, tree);
      && PathsSafe(items) && PathsUnique(items) && StructureSafe(tree) && ResourcesBounded(tree) && FileSetExact(items, tree)
      && (Reread(lines) == Inventory(true, Expected(items)) <==> AllCommon(lines))
      && (AllFilesExact(items, tree) <==>
            forall i :: 0 <= i < |items| ==> IsFile(tree, items[i].path) && tree[items[i].path].digest == items[i].digest)
  {
    hide Items, Reread, Expected, LineOk, PathsSafe, PathsUnique, StructureSafe, ResourcesBounded, FileSetExact, AllCommon;
    TreeChecks(lines, tree);
    NotItself(lines, tree);
    RereadExactly(lines, tree);
    ExactIffTrue(Items(lines, tree), tree);
  }

  const ALL_PASS: BundleChecks := BundleChecks(true, true, true, true, true, true, true)

  /** Every listed file is there with the digest its line states. */
  predicate DigestsTrue(lines: seq<string>, tree: Tree) {
    forall i :: 0 <= i < |lines| ==>
      var p := LinePath(lines[i]); IsFile(tree, p) && tree[p].digest == LineItem(lines[i], tree).digest
  }

  lemma TrueDigests(lines: seq<string>, tree: Tree)
    ensures DigestsTrue(lines, tree) <==>
      var items := Items(lines, tree);
      forall i :: 0 <= i < |items| ==> IsFile(tree, items[i].path) && tree[items[i].path].digest == items[i].digest
  {
    hide SplitOnce, Items, LinePath;
    var items := Items(lines, tree);
    if lines == [] {
      NoItems(tree);
    } else {
      ItemsAt(lines, tree, 0);
    }
    forall i | 0 <= i < |lines|
      ensures items[i] == LineItem(lines[i], tree)
    {
      ItemsAt(lines, tree, i);
    }
    assert |items| == |lines|;
    if DigestsTrue(lines, tree) {
      forall i | 0 <= i < |items|
        ensures IsFile(tree, items[i].path) && tree[items[i].path].digest == items[i].digest
      {
        assert IsFile(tree, LinePath(lines[i]));
      }
    }
  }

  /**
   All checks of the verifier pass on a bundle the builder accepts if and only if
   every line is in the common form, the stated digests are true, and the checksum
   file is not empty, which it is not when these are its lines.
   */
  lemma EveryCheckPasses(lines: seq<string>, tree: Tree)
    requires BuilderAccepts(lines, tree)
    ensures ChecksOf(Items(lines, tree), lines, tree) == ALL_PASS <==>
            AllCommon(lines) && DigestsTrue(lines, tree) && tree[SUMS].size > 0
  {
    hide Items, Reread, Expected, LineOk, PathsSafe, PathsUnique, StructureSafe, ResourcesBounded, FileSetExact, AllCommon, DigestsTrue;
    BuilderSatisfiesVerifier(lines, tree);
    TrueDigests(lines, tree);
  }

  /** Two families out of the common form: a tab where the tool writes two characters, and a name that starts with a star. */
  lemma OddLines(digest: string, path: string)
    requires Hex64(digest) && path != "" && !IsSpace(path[0])
    ensures var line := digest + "\t" + path;
      SplitOnce(line) == Some((digest, path)) && MatchLine(line) == None
    ensures var line := ToolLine(digest, ' ', "*" + path);
      SplitOnce(line) == Some((digest, "*" + path)) && MatchLine(line) == Some((digest, "*" + path))
      && BuilderPath("*" + path) == RemovePrefix(path, "./")
  {
    BuilderReads(digest, ' ', "*" + path);
    VerifierReads(digest, ' ', "*" + path);
    PrefixRemoved("*", path);
    assert ("*" + path)[..2] != "./";
    var line := digest + "\t" + path;
    Regroup(digest, "\t", path);
    TokenOfHex(digest, "\t" + path);
    assert IsHex(line[0]) && SkipSpaces(line) == line;
    assert line[|digest|..] == "\t" + path && line[64] == '\t';
    assert ("\t" + path)[1..] == path && SkipSpaces(path) == path;
    assert SkipSpaces("\t" + path) == path;
  }
}
