/**
 The JSON Pointer resolver of the contract validator against RFC 6901: pointers
 printed with the escaping of section 3 of RFC 6901, resolved by the two-pass
 unescaping loop.
 */
module JsonPointer {
  import opened Prelude
  import opened Paths
  import opened JsonValue

  datatype Step = Key(key: string) | Index(i: nat)

  /** The subtree at a path. */
  function Get(doc: Json, path: seq<Step>): Option<Json>
    decreases |path|
  {
    if path == [] then Some(doc)
    else
      match path[0]
      case Key(k) => if doc.Obj? && k in doc.fields then Get(doc.fields[k], path[1..]) else None
      case Index(i) => if doc.Arr? && i < |doc.items| then Get(doc.items[i], path[1..]) else None
  }

  // ----- integers as text -----

  function DigitChar(d: nat): char
    requires d < 10
  {
    ['0', '1', '2', '3', '4', '5', '6', '7', '8', '9'][d]
  }

  /** The zeros of the decimal digit runs of Unicode 15.0; in each run the ten digits follow one another. */
  const ZEROS: seq<int> := [
    0x30, 0x660, 0x6F0, 0x7C0, 0x966, 0x9E6, 0xA66, 0xAE6, 0xB66, 0xBE6, 0xC66, 0xCE6, 0xD66, 0xDE6, 0xE50, 0xED0,
    0xF20, 0x1040, 0x1090, 0x17E0, 0x1810, 0x1946, 0x19D0, 0x1A80, 0x1A90, 0x1B50, 0x1BB0, 0x1C40, 0x1C50, 0xA620,
    0xA8D0, 0xA900, 0xA9D0, 0xA9F0, 0xAA50, 0xABF0, 0xFF10, 0x104A0, 0x10D30, 0x11066, 0x110F0, 0x11136, 0x111D0,
    0x112F0, 0x11450, 0x114D0, 0x11650, 0x116C0, 0x11730, 0x118E0, 0x11950, 0x11C50, 0x11D50, 0x11DA0, 0x11F50,
    0x16A60, 0x16AC0, 0x16B50, 0x1D7CE, 0x1D7D8, 0x1D7E2, 0x1D7EC, 0x1D7F6, 0x1E140, 0x1E2F0, 0x1E4F0, 0x1E950,
    0x1FBF0]

  function DigitIn(n: int, zeros: seq<int>): Option<nat> {
    if zeros == [] then None
    else if zeros[0] <= n < zeros[0] + 10 then Some(n - zeros[0])
    else DigitIn(n, zeros[1..])
  }

  function DigitOf(c: char): Option<nat> {
    if '0' <= c <= '9' then Some(c as int - '0' as int) else DigitIn(c as int, ZEROS[1..])
  }

  /** What may surround an integer; the four ASCII separators count as white space elsewhere but not here. */
  predicate AroundInt(c: char) { IsSpace(c) && !(28 <= c as int <= 31) }

  function PrintNat(n: nat): string {
    if n < 10 then [DigitChar(n)] else PrintNat(n / 10) + [DigitChar(n % 10)]
  }

  function TrimLeft(s: string): string { if s != "" && AroundInt(s[0]) then TrimLeft(s[1..]) else s }

  function TrimRight(s: string): string
    decreases |s|
  {
    if s != "" && AroundInt(s[|s| - 1]) then TrimRight(s[..|s| - 1]) else s
  }

  /** Decimal digits; single underscores may separate them. */
  function Digits(s: string, acc: nat, afterDigit: bool): Option<nat>
    decreases |s|
  {
    if s == "" then if afterDigit then Some(acc) else None
    else if DigitOf(s[0]).Some? then Digits(s[1..], 10 * acc + DigitOf(s[0]).value, true)
    else if s[0] == '_' && afterDigit then Digits(s[1..], acc, false)
    else None
  }

  /** The integer a list index is read as: surrounding space, a sign and underscores are accepted. */
  function ParseInt(text: string): Option<int> {
    var s := TrimRight(TrimLeft(text));
    if s != "" && (s[0] == '+' || s[0] == '-') then
      var m := Digits(s[1..], 0, false);
      if m.None? then None else var magnitude: int := m.value; Some(if s[0] == '-' then -magnitude else magnitude)
    else
      var m := Digits(s, 0, false);
      if m.None? then None else Some(m.value)
  }

  predicate AllDigits(s: string) { forall i :: 0 <= i < |s| ==> '0' <= s[i] <= '9' }

  lemma {:induction false} PrintedDigits(n: nat)
    ensures PrintNat(n) != "" && AllDigits(PrintNat(n))
  {
    if n >= 10 {
      PrintedDigits(n / 10);
    }
  }

  lemma AsciiDigit(c: char)
    requires '0' <= c <= '9'
    ensures DigitOf(c) == Some(c as int - '0' as int)
  {
  }

  lemma LastDigit(d: nat, acc: nat, after: bool)
    requires d < 10
    ensures Digits([DigitChar(d)], acc, after) == Some(10 * acc + d)
  {
    AsciiDigit(DigitChar(d));
    hide DigitOf;
    assert [DigitChar(d)][1..] == "";
    assert Digits("", 10 * acc + d, true) == Some(10 * acc + d);
  }

  lemma {:induction false} DigitsSnoc(s: string, acc: nat, d: nat, after: bool)
    requires AllDigits(s) && d < 10
    ensures Digits(s + [DigitChar(d)], acc, after) == (
      var m := Digits(s, acc, true); if m.None? then None else Some(10 * m.value + d))
    decreases |s|
  {
    hide DigitOf, DigitChar;
    if s == "" {
      assert s + [DigitChar(d)] == [DigitChar(d)];
      LastDigit(d, acc, after);
    } else {
      AsciiDigit(s[0]);
      var next := 10 * acc + DigitOf(s[0]).value;
      DigitsSnoc(s[1..], next, d, true);
      assert (s + [DigitChar(d)])[1..] == s[1..] + [DigitChar(d)];
    }
  }

  lemma DigitsFlag(s: string, acc: nat)
    requires s != "" && AllDigits(s)
    ensures Digits(s, acc, true) == Digits(s, acc, false)
  {
    hide DigitIn;
  }

  lemma {:induction false} DigitsPrinted(n: nat)
    ensures Digits(PrintNat(n), 0, false) == Some(n)
  {
    hide DigitIn;
    if n < 10 {
      DigitsSnoc("", 0, n, false);
      assert "" + [DigitChar(n)] == [DigitChar(n)];
    } else {
      PrintedDigits(n / 10);
      DigitsPrinted(n / 10);
      DigitsFlag(PrintNat(n / 10), 0);
      DigitsSnoc(PrintNat(n / 10), 0, n % 10, false);
    }
  }

  lemma ParsePrinted(n: nat)
    ensures ParseInt(PrintNat(n)) == Some(n)
  {
    PrintedDigits(n);
    DigitsPrinted(n);
    var s := PrintNat(n);
    assert '0' <= s[0] <= '9' && '0' <= s[|s| - 1] <= '9';
    assert TrimLeft(s) == s && TrimRight(s) == s;
  }

  // ----- escaping -----

  function Escape(s: string): string {
    if s == "" then ""
    else (if s[0] == '~' then ['~', '0'] else if s[0] == '/' then ['~', '1'] else [s[0]]) + Escape(s[1..])
  }

  /** Left-to-right replacement of every `~c` by `put`. */
  function Replace(s: string, c: char, put: char): string
    decreases |s|
  {
    if |s| >= 2 && s[0] == '~' && s[1] == c then [put] + Replace(s[2..], c, put)
    else if s == "" then ""
    else [s[0]] + Replace(s[1..], c, put)
  }

  function Unescape(s: string): string { Replace(Replace(s, '1', '/'), '0', '~') }

  /** What is left between the two passes: only the tildes are still escaped. */
  function Half(s: string): string {
    if s == "" then "" else (if s[0] == '~' then ['~', '0'] else [s[0]]) + Half(s[1..])
  }

  lemma Pair(c: char, d: char, rest: string)
    ensures [c] + ([d] + rest) == [c, d] + rest
  {
  }

  lemma ReplacePair(c: char, d: char, put: char, rest: string)
    ensures Replace(['~', d] + rest, c, put) == if d == c then [put] + Replace(rest, c, put) else ['~'] + Replace([d] + rest, c, put)
  {
    var s := ['~', d] + rest;
    assert s[1..] == [d] + rest && s[2..] == rest;
  }

  lemma ReplaceOther(x: char, c: char, put: char, rest: string)
    requires x != '~'
    ensures Replace([x] + rest, c, put) == [x] + Replace(rest, c, put)
  {
    assert ([x] + rest)[1..] == rest;
  }

  lemma {:induction false} FirstPass(s: string)
    ensures Replace(Escape(s), '1', '/') == Half(s)
  {
    if s != "" {
      hide Replace;
      var rest := Escape(s[1..]);
      FirstPass(s[1..]);
      if s[0] == '~' {
        ReplacePair('1', '0', '/', rest);
        ReplaceOther('0', '1', '/', rest);
        assert Escape(s) == ['~', '0'] + rest;
        Pair('~', '0', Half(s[1..]));
      } else if s[0] == '/' {
        ReplacePair('1', '1', '/', rest);
        assert Escape(s) == ['~', '1'] + rest;
      } else {
        ReplaceOther(s[0], '1', '/', rest);
      }
    }
  }

  lemma {:induction false} SecondPass(s: string)
    ensures Replace(Half(s), '0', '~') == s
  {
    if s != "" {
      var rest := Half(s[1..]);
      SecondPass(s[1..]);
      if s[0] == '~' {
        ReplacePair('0', '0', '~', rest);
        assert Half(s) == ['~', '0'] + rest;
      } else {
        ReplaceOther(s[0], '0', '~', rest);
      }
      assert s == [s[0]] + s[1..];
    }
  }

  /** The two-pass replacement inverts escaping on every string. */
  lemma UnescapeInverts(s: string)
    ensures Unescape(Escape(s)) == s
  {
    FirstPass(s);
    SecondPass(s);
  }

  /** The order of the passes matters: the other order turns an escaped "~1" into a slash. */
  lemma OtherOrderFails()
    ensures Replace(Replace(Escape("~1"), '0', '~'), '1', '/') != "~1"
  {
    assert Escape("1") == "1" by { assert "1"[1..] == "" && Escape("") == ""; }
    assert "~1"[1..] == "1";
    assert Escape("~1") == ['~', '0'] + "1";
    ReplacePair('0', '0', '~', "1");
    assert Replace("1", '0', '~') == "1" by { assert "1"[1..] == ""; }
    assert Replace(Escape("~1"), '0', '~') == ['~'] + "1" == ['~', '1'] + "";
    ReplacePair('1', '1', '/', "");
  }

  lemma {:induction false} EscapePlain(s: string)
    ensures Plain(Escape(s)) && (Escape(s) == "" <==> s == "")
  {
    if s != "" {
      EscapePlain(s[1..]);
    }
  }

  // ----- resolving -----

  /** One reference token on one value. */
  function Follow(cur: Json, seg: string): Option<Json> {
    match cur
    case Arr(items) =>
      var i := ParseInt(seg);
      if i.None? then None
      else if 0 <= i.value < |items| then Some(items[i.value])
      else if -|items| <= i.value < 0 then Some(items[i.value + |items|])
      else None
    case Obj(fields) => if seg in fields then Some(fields[seg]) else None
    case _ => None
  }

  /** The tokens one after another; an empty token stays where it is. */
  function Walk(cur: Json, segs: seq<string>): Option<Json>
    decreases |segs|
  {
    if segs == [] then Some(cur)
    else if segs[0] == "" then Walk(cur, segs[1..])
    else
      var next := Follow(cur, segs[0]);
      if next.None? then None else Walk(next.value, segs[1..])
  }

  function UnescapeAll(segs: seq<string>): seq<string> {
    if segs == [] then [] else [Unescape(segs[0])] + UnescapeAll(segs[1..])
  }

  function Resolved(doc: Json, ptr: string): Option<Json> {
    if "/" <= ptr then Walk(doc, UnescapeAll(Split(ptr)[1..])) else None
  }

  /** The resolver; `None` is any raised error. */
  method Resolve(doc: Json, ptr: string) returns (r: Option<Json>)
    ensures r == Resolved(doc, ptr)
  {
    if !("/" <= ptr) {
      return None;
    }
    var cur, segs, i := doc, Split(ptr)[1..], 0;
    assert segs[0..] == segs;
    while i < |segs|
      invariant 0 <= i <= |segs| && Walk(doc, UnescapeAll(segs)) == Walk(cur, UnescapeAll(segs[i..]))
    {
      var seg := Unescape(segs[i]);
      assert segs[i..][0] == segs[i] && segs[i..][1..] == segs[i + 1..];
      assert UnescapeAll(segs[i..])[1..] == UnescapeAll(segs[i + 1..]);
      i := i + 1;
      if seg == "" {
        continue;
      }
      var next := Follow(cur, seg);
      if next.None? {
        return None;
      }
      cur := next.value;
    }
    return Some(cur);
  }

  // ----- printing -----

  function TextOf(step: Step): string { match step case Key(k) => k case Index(i) => PrintNat(i) }

  function EscapedSegs(path: seq<Step>): seq<string> {
    if path == [] then [] else [Escape(TextOf(path[0]))] + EscapedSegs(path[1..])
  }

  function Texts(path: seq<Step>): seq<string> {
    if path == [] then [] else [TextOf(path[0])] + Texts(path[1..])
  }

  function Print(path: seq<Step>): string {
    if path == [] then "" else "/" + Escape(TextOf(path[0])) + Print(path[1..])
  }

  lemma {:induction false} PrintJoins(path: seq<Step>)
    requires path != []
    ensures Print(path) == "/" + Join(EscapedSegs(path)) && |EscapedSegs(path)| == |path|
    ensures AllPlain(EscapedSegs(path))
  {
    EscapePlain(TextOf(path[0]));
    hide Escape, TextOf;
    if |path| > 1 {
      PrintJoins(path[1..]);
      var first, rest := Escape(TextOf(path[0])), EscapedSegs(path[1..]);
      assert EscapedSegs(path)[1..] == rest;
      Regroup("/" + first, "/", Join(rest));
      Regroup("/", first, "/");
      Regroup("/", first + "/", Join(rest));
    } else {
      assert path[1..] == [];
    }
  }

  lemma PrintedSegments(path: seq<Step>)
    requires path != []
    ensures "/" <= Print(path) && Split(Print(path))[1..] == EscapedSegs(path)
  {
    PrintJoins(path);
    SplitJoin(EscapedSegs(path));
    SplitCons('/', Join(EscapedSegs(path)));
    assert "/" + Join(EscapedSegs(path)) == ['/'] + Join(EscapedSegs(path));
    hide Split;
  }

  lemma {:induction false} UnescapedTexts(path: seq<Step>)
    ensures UnescapeAll(EscapedSegs(path)) == Texts(path)
  {
    if path != [] {
      UnescapeInverts(TextOf(path[0]));
      UnescapedTexts(path[1..]);
      assert EscapedSegs(path)[1..] == EscapedSegs(path[1..]);
    }
  }

  function WithoutEmpty(path: seq<Step>): seq<Step> {
    if path == [] then []
    else if path[0] == Key("") then WithoutEmpty(path[1..])
    else [path[0]] + WithoutEmpty(path[1..])
  }

  predicate NoEmptyKey(path: seq<Step>) { forall i :: 0 <= i < |path| ==> path[i] != Key("") }

  /** Walking the printed tokens is following the path that has no empty keys. */
  lemma {:induction false} WalkFollows(doc: Json, path: seq<Step>)
    requires Get(doc, WithoutEmpty(path)).Some?
    ensures Walk(doc, Texts(path)) == Get(doc, WithoutEmpty(path))
    decreases |path|
  {
    if path != [] {
      var rest := WithoutEmpty(path[1..]);
      assert Texts(path)[1..] == Texts(path[1..]);
      match path[0]
      case Key(k) =>
        if k == "" {
          WalkFollows(doc, path[1..]);
        } else {
          assert WithoutEmpty(path)[1..] == rest;
          WalkFollows(doc.fields[k], path[1..]);
        }
      case Index(i) =>
        assert WithoutEmpty(path)[1..] == rest;
        PrintedDigits(i);
        ParsePrinted(i);
        WalkFollows(doc.items[i], path[1..]);
    }
  }

  lemma {:induction false} EmptyTextsSkipped(doc: Json, path: seq<Step>)
    ensures Walk(doc, Texts(path)) == Walk(doc, Texts(WithoutEmpty(path)))
    decreases |path|
  {
    if path != [] {
      var rest := WithoutEmpty(path[1..]);
      assert Texts(path)[1..] == Texts(path[1..]);
      if path[0] == Key("") {
        EmptyTextsSkipped(doc, path[1..]);
      } else {
        TextNonEmpty(path[0]);
        assert WithoutEmpty(path)[1..] == rest && Texts(WithoutEmpty(path))[1..] == Texts(rest);
        var next := Follow(doc, TextOf(path[0]));
        if next.Some? {
          EmptyTextsSkipped(next.value, path[1..]);
        }
      }
    }
  }

  lemma TextNonEmpty(step: Step)
    ensures TextOf(step) == "" <==> step == Key("")
  {
    if step.Index? {
      PrintedDigits(step.i);
    }
  }

  /**
   What the resolver makes of a printed path, for every document: what it makes of
   the path without its empty keys, and so the subtree there if there is one.
   */
  lemma ResolvesWithoutEmptyKeys(doc: Json, path: seq<Step>)
    requires path != []
    ensures var short := WithoutEmpty(path);
      Resolved(doc, Print(path)) == if short == [] then Some(doc) else Resolved(doc, Print(short))
    ensures Get(doc, WithoutEmpty(path)).Some? ==> Resolved(doc, Print(path)) == Get(doc, WithoutEmpty(path))
  {
    var short := WithoutEmpty(path);
    PrintedSegments(path);
    UnescapedTexts(path);
    EmptyTextsSkipped(doc, path);
    if short != [] {
      PrintedSegments(short);
      UnescapedTexts(short);
    }
    if Get(doc, short).Some? {
      WalkFollows(doc, path);
    }
    hide Split, Walk, Texts, Print;
  }

  lemma {:induction false} NothingToDrop(path: seq<Step>)
    requires NoEmptyKey(path)
    ensures WithoutEmpty(path) == path
  {
    if path != [] {
      assert NoEmptyKey(path[1..]) by { assert forall i :: 0 <= i < |path| - 1 ==> path[1..][i] == path[i + 1]; }
      NothingToDrop(path[1..]);
    }
  }

  /** Round trip: a printed path with non-empty keys resolves to exactly the subtree it names. */
  lemma RoundTrip(doc: Json, path: seq<Step>)
    requires path != [] && NoEmptyKey(path) && Get(doc, path).Some?
    ensures Resolved(doc, Print(path)) == Get(doc, path)
  {
    NothingToDrop(path);
    ResolvesWithoutEmptyKeys(doc, path);
  }

  /** An empty key is a legal member name, but the resolver steps over it. */
  lemma EmptyKeyFails(value: Json)
    requires !value.Obj?
    ensures var doc := Obj(map["" := value]);
      Get(doc, [Key("")]) == Some(value) && Resolved(doc, Print([Key("")])) == Some(doc) && doc != value
  {
    var doc := Obj(map["" := value]);
    var path := [Key("")];
    assert path[1..] == [];
    assert WithoutEmpty(path) == [] && Get(doc, []) == Some(doc);
    ResolvesWithoutEmptyKeys(doc, path);
    assert Get(doc, path) == Get(value, []) == Some(value);
  }

  // ----- exactly when a printed path comes back -----

  /** The document that holds `leaf` at `path` and as little else as possible. */
  function Chain(path: seq<Step>, leaf: Json): Json {
    if path == [] then leaf
    else
      var inner := Chain(path[1..], leaf);
      match path[0]
      case Key(k) => Obj(map[k := inner])
      case Index(i) => Arr(seq(i + 1, _ => inner))
  }

  lemma {:induction false} ChainHolds(path: seq<Step>, leaf: Json)
    ensures Get(Chain(path, leaf), path) == Some(leaf)
  {
    if path != [] {
      ChainHolds(path[1..], leaf);
    }
  }

  /** A document whose only member has the empty name is never left. */
  lemma {:induction false} NeverLeft(value: Json, segs: seq<string>)
    ensures var doc := Obj(map["" := value]); Walk(doc, segs) in {None, Some(doc)}
    decreases |segs|
  {
    if segs != [] && segs[0] == "" {
      NeverLeft(value, segs[1..]);
    }
  }

  lemma {:induction false} ChainMissed(path: seq<Step>)
    requires !NoEmptyKey(path)
    ensures Walk(Chain(path, Null), Texts(path)) != Some(Null)
  {
    hide ParseInt, PrintNat;
    var doc, inner := Chain(path, Null), Chain(path[1..], Null);
    assert Texts(path)[1..] == Texts(path[1..]);
    if path[0] == Key("") {
      NeverLeft(inner, Texts(path));
    } else {
      TextNonEmpty(path[0]);
      assert !NoEmptyKey(path[1..]) by {
        var i :| 0 <= i < |path| && path[i] == Key("");
        assert path[1..][i - 1] == Key("");
      }
      ChainMissed(path[1..]);
      if path[0].Index? {
        ParsePrinted(path[0].i);
      }
      assert Follow(doc, TextOf(path[0])) == Some(inner);
    }
  }

  /** A printed path comes back from every document that has it exactly when it is not empty and has no empty key. */
  lemma RoundTripExactly(path: seq<Step>)
    ensures (forall doc :: Get(doc, path).Some? ==> Resolved(doc, Print(path)) == Get(doc, path)) <==>
            (path != [] && NoEmptyKey(path))
  {
    if path == [] {
      WholeDocumentRefused(Null);
    } else if NoEmptyKey(path) {
      forall doc | Get(doc, path).Some?
        ensures Resolved(doc, Print(path)) == Get(doc, path)
      {
        RoundTrip(doc, path);
      }
    } else {
      var doc := Chain(path, Null);
      ChainHolds(path, Null);
      PrintedSegments(path);
      UnescapedTexts(path);
      ChainMissed(path);
      hide Walk, Split, Print, Texts, NoEmptyKey;
      assert Get(doc, path).Some? && Resolved(doc, Print(path)) != Get(doc, path);
    }
  }

  // ----- exactly when a pointer is read as RFC 6901 reads it -----

  /** An array index: digits without leading zeros. */
  function RfcIndex(token: string): Option<nat> {
    var v := ParseInt(token);
    if v.Some? && v.value >= 0 && PrintNat(v.value) == token then Some(v.value) else None
  }

  function RfcStep(cur: Json, token: string): Option<Json> {
    match cur
    case Arr(items) =>
      var i := RfcIndex(token);
      if i.Some? && i.value < |items| then Some(items[i.value]) else None
    case Obj(fields) => if token in fields then Some(fields[token]) else None
    case _ => None
  }

  function RfcWalk(cur: Json, tokens: seq<string>): Option<Json>
    decreases |tokens|
  {
    if tokens == [] then Some(cur)
    else
      var next := RfcStep(cur, tokens[0]);
      if next.None? then None else RfcWalk(next.value, tokens[1..])
  }

  /** Every tilde begins an escape; any other pointer is an error of syntax by sections 3 and 7 of RFC 6901. */
  predicate WellEscaped(ptr: string) {
    forall i :: 0 <= i < |ptr| && ptr[i] == '~' ==> i + 1 < |ptr| && (ptr[i + 1] == '0' || ptr[i + 1] == '1')
  }

  function RfcResolved(doc: Json, ptr: string): Option<Json> {
    if ptr == "" then Some(doc)
    else if "/" <= ptr && WellEscaped(ptr) then RfcWalk(doc, UnescapeAll(Split(ptr)[1..]))
    else None
  }

  /** Not empty, and read as an integer only if it is an index. */
  predicate Strict(token: string) { token != "" && (ParseInt(token).Some? ==> RfcIndex(token).Some?) }

  predicate AllStrict(tokens: seq<string>) { forall i :: 0 <= i < |tokens| ==> Strict(tokens[i]) }

  lemma {:induction false} StrictWalk(doc: Json, tokens: seq<string>)
    requires AllStrict(tokens)
    ensures Walk(doc, tokens) == RfcWalk(doc, tokens)
    decreases |tokens|
  {
    if tokens != [] {
      assert Strict(tokens[0]);
      assert AllStrict(tokens[1..]) by { assert forall i :: 0 <= i < |tokens| - 1 ==> tokens[1..][i] == tokens[i + 1]; }
      assert Follow(doc, tokens[0]) == RfcStep(doc, tokens[0]);
      var next := Follow(doc, tokens[0]);
      if next.Some? {
        StrictWalk(next.value, tokens[1..]);
      }
    }
  }

  /** A document of nested members named by the tokens, with `leaf` inside. */
  function Nest(tokens: seq<string>, leaf: Json): Json {
    if tokens == [] then leaf else Obj(map[tokens[0] := Nest(tokens[1..], leaf)])
  }

  /** On a nest RFC 6901 reaches the leaf, and so does the resolver if no token is empty. */
  lemma {:induction false} NestWalks(tokens: seq<string>, more: seq<string>, leaf: Json)
    ensures RfcWalk(Nest(tokens, leaf), tokens + more) == RfcWalk(leaf, more)
    ensures (forall i :: 0 <= i < |tokens| ==> tokens[i] != "") ==> Walk(Nest(tokens, leaf), tokens + more) == Walk(leaf, more)
  {
    hide ParseInt, RfcIndex;
    if tokens == [] {
      assert tokens + more == more;
    } else {
      NestWalks(tokens[1..], more, leaf);
      assert (tokens + more)[1..] == tokens[1..] + more && (tokens + more)[0] == tokens[0];
      assert forall i :: 0 <= i < |tokens| - 1 ==> tokens[1..][i] == tokens[i + 1];
    }
  }

  lemma {:induction false} NestMissed(tokens: seq<string>)
    requires exists i :: 0 <= i < |tokens| && tokens[i] == ""
    ensures Walk(Nest(tokens, Null), tokens) != Some(Null)
  {
    if tokens[0] == "" {
      NeverLeft(Nest(tokens[1..], Null), tokens);
    } else {
      var i :| 0 <= i < |tokens| && tokens[i] == "";
      assert tokens[1..][i - 1] == "";
      NestMissed(tokens[1..]);
    }
  }

  /** A list long enough for the integer a token is read as, every item of it `inner`. */
  function Enough(v: int, inner: Json): Json { Arr(seq(if v >= 0 then v + 1 else -v, _ => inner)) }

  lemma LooseIndex(token: string, inner: Json)
    requires token != "" && !Strict(token)
    ensures var doc := Enough(ParseInt(token).value, inner); Follow(doc, token) == Some(inner) && RfcStep(doc, token) == None
  {
    hide ParseInt, PrintNat;
  }

  /** The document that tells the two readings apart at token `i`, the tokens being non-empty. */
  lemma LooseWalk(tokens: seq<string>, i: nat) returns (doc: Json)
    requires i < |tokens| && !Strict(tokens[i]) && forall k :: 0 <= k < |tokens| ==> tokens[k] != ""
    ensures Walk(doc, tokens) != RfcWalk(doc, tokens)
  {
    hide Digits, TrimLeft, TrimRight, DigitIn, PrintNat;
    var pre, post := tokens[..i], tokens[i + 1..];
    var inner := Nest(post, Null);
    var list := Enough(ParseInt(tokens[i]).value, inner);
    doc := Nest(pre, list);
    LooseIndex(tokens[i], inner);
    hide RfcIndex, Strict, ParseInt, Enough, Follow, RfcStep;
    assert tokens == pre + [tokens[i]] + post;
    assert tokens == pre + ([tokens[i]] + post) by { Regroup(pre, [tokens[i]], post); }
    NestWalks(pre, [tokens[i]] + post, list);
    assert ([tokens[i]] + post)[1..] == post && ([tokens[i]] + post)[0] == tokens[i];
    assert post + [] == post;
    NestWalks(post, [], Null);
    assert Walk(list, [tokens[i]] + post) == Walk(inner, post) == Some(Null);
    assert RfcWalk(list, [tokens[i]] + post) == None;
  }

  /** The two readings of a list of tokens agree on every document exactly when every token is strict. */
  lemma WalksAgreeExactly(tokens: seq<string>)
    ensures (forall doc :: Walk(doc, tokens) == RfcWalk(doc, tokens)) <==> AllStrict(tokens)
  {
    if AllStrict(tokens) {
      forall doc
        ensures Walk(doc, tokens) == RfcWalk(doc, tokens)
      {
        StrictWalk(doc, tokens);
      }
    } else if exists i :: 0 <= i < |tokens| && tokens[i] == "" {
      NestMissed(tokens);
      NestWalks(tokens, [], Null);
      assert tokens + [] == tokens;
    } else {
      var i :| 0 <= i < |tokens| && !Strict(tokens[i]);
      var doc := LooseWalk(tokens, i);
    }
  }

  /** A document through which the resolver gets, whatever the tokens. */
  function Through(tokens: seq<string>): Json {
    if tokens == [] then Null
    else if tokens[0] == "" then Through(tokens[1..])
    else Obj(map[tokens[0] := Through(tokens[1..])])
  }

  lemma {:induction false} WalksThrough(tokens: seq<string>)
    ensures Walk(Through(tokens), tokens) == Some(Null)
  {
    if tokens != [] {
      WalksThrough(tokens[1..]);
    }
  }

  /** The pointers of which the two readings agree on every document. */
  predicate ReadAsWritten(ptr: string) {
    ptr != "" && ("/" <= ptr ==> WellEscaped(ptr) && AllStrict(UnescapeAll(Split(ptr)[1..])))
  }

  /**
   The resolver reads a pointer as RFC 6901 does, on every document, exactly when it
   is not empty, every tilde in it begins an escape, and its tokens are strict.
   */
  lemma PointerExactly(ptr: string)
    ensures (forall doc :: Resolved(doc, ptr) == RfcResolved(doc, ptr)) <==> ReadAsWritten(ptr)
  {
    if ptr == "" {
      assert Resolved(Null, ptr) != RfcResolved(Null, ptr);
    } else if "/" <= ptr {
      var tokens := UnescapeAll(Split(ptr)[1..]);
      WalksAgreeExactly(tokens);
      WalksThrough(tokens);
      hide Walk, RfcWalk, AllStrict, UnescapeAll, Split, WellEscaped;
      if !WellEscaped(ptr) {
        assert Resolved(Through(tokens), ptr) != RfcResolved(Through(tokens), ptr);
      } else if AllStrict(tokens) {
        forall doc
          ensures Resolved(doc, ptr) == RfcResolved(doc, ptr)
        {
          assert Walk(doc, tokens) == RfcWalk(doc, tokens);
        }
      } else {
        var doc :| Walk(doc, tokens) != RfcWalk(doc, tokens);
        assert Resolved(doc, ptr) != RfcResolved(doc, ptr);
      }
    }
  }

  /** A pointer RFC 6901 refuses and the resolver reads. */
  lemma LooseTilde(value: Json)
    ensures var doc := Obj(map["~2" := value]); Resolved(doc, "/~2") == Some(value) && RfcResolved(doc, "/~2") == None
  {
    var doc := Obj(map["~2" := value]);
    assert "/~2"[1] == '~' && "/~2"[2] == '2' && !WellEscaped("/~2");
    SplitOne("~2");
    SplitCons('/', "~2");
    assert "/~2" == ['/'] + "~2";
    assert Split("/~2")[1..] == ["~2"];
    assert "~2"[1..] == "2" && "2"[1..] == "" && Replace("", '1', '/') == "" && Replace("", '0', '~') == "";
    assert Replace("2", '1', '/') == "2" && Replace("2", '0', '~') == "2";
    assert Replace("~2", '1', '/') == "~2" && Replace("~2", '0', '~') == "~2" && Unescape("~2") == "~2";
    assert ["~2"][1..] == [] && UnescapeAll(["~2"]) == ["~2"];
    assert Walk(value, []) == Some(value) && Walk(doc, ["~2"]) == Some(value);
  }

  /** The whole document, which RFC 6901 names by the empty pointer, is refused. */
  lemma WholeDocumentRefused(doc: Json)
    ensures Resolved(doc, Print([])) == None && Get(doc, []) == Some(doc)
  {
  }
}
