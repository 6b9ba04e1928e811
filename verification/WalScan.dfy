/**
 Framed records and the recovery scan of one segment file.  A framing says how
 a record becomes bytes and how the front of a byte string is read back; the
 laws it must obey are `Lawful`, and module WalCodec shows that the log's own
 36-byte framing obeys them.  `Scan` reads records until the bytes run out, a
 record is incomplete, or something is wrong; the method `ScanSegment` is the
 loop the log runs when it opens a directory.
 */
module WalScan {
  import opened Prelude

  newtype uint8 = i: int | 0 <= i < 0x100
  type bytes = seq<uint8>

  const HEADER_BYTES: nat := 36

  datatype WalError =
    | Corrupt | ClockUnprovable | Full | RecordTooLarge | RetentionExpired | CheckpointOutOfRange
    | InvalidLimit | Io

  datatype Record = Record(sequence: nat, recordedAt: nat, payload: bytes)

  /**
   Reading the front of some bytes: incomplete, wrong, or one whole record.  An
   incomplete record whose header is whole has shown its time (`seen`); it is 0
   when not even the header is there.
   */
  datatype Parsed = Torn(seen: nat) | Bad(error: WalError) | One(record: Record)

  /** Reading a header alone. */
  datatype Peeked = Short | Wrong(error: WalError) | Head(recordedAt: nat, length: nat)

  /**
   `parse(b, expected, last)` reads one record whose predecessor was admitted at
   time `last`; `peek(b, expected)` reads no further than the header.
   */
  datatype Framing = Framing(
    storable: Record -> bool, encode: Record -> bytes,
    parse: (bytes, nat, nat) -> Parsed, peek: (bytes, nat) -> Peeked)

  /** The time that the first `k` bytes of the encoding of `r` show. */
  function SeenIn(r: Record, k: nat): nat {
    if k < HEADER_BYTES then 0 else r.recordedAt
  }

  /** One instance of a law; naming the instance keeps the laws out of proofs that do not ask for them. */
  datatype Instance =
    | Size(r: Record)
    | Whole(r: Record, rest: bytes, last: nat)
    | Cut(r: Record, k: nat, last: nat)
    | Back(b: bytes, expected: nat, last: nat)
    | Peek(r: Record, rest: bytes)

  /** The header is right and shows `seen`, but the payload it announces is not all there. */
  predicate Announced(f: Framing, b: bytes, expected: nat, seen: nat) {
    var p := f.peek(b, expected);
    p.Head? && p.recordedAt == seen && |b| < HEADER_BYTES + p.length
  }

  ghost predicate Law(f: Framing, i: Instance) {
    match i
    case Size(r) => |f.encode(r)| == HEADER_BYTES + |r.payload| && (f.storable(r) ==> r.recordedAt > 0)
    case Whole(r, rest, last) =>
      f.storable(r) && last <= r.recordedAt ==> f.parse(f.encode(r) + rest, r.sequence, last) == One(r)
    case Cut(r, k, last) =>
      f.storable(r) && last <= r.recordedAt && k < |f.encode(r)| ==>
        f.parse(f.encode(r)[..k], r.sequence, last) == Torn(SeenIn(r, k))
    case Back(b, expected, last) =>
      (match f.parse(b, expected, last)
       case One(r) => ReadsBack(f, b, expected, last, r)
       case Torn(seen) => if |b| < HEADER_BYTES then seen == 0 else 0 < seen && last <= seen && Announced(f, b, expected, seen)
       case Bad(_) => true)
    case Peek(r, rest) => f.storable(r) ==> f.peek(f.encode(r) + rest, r.sequence) == Head(r.recordedAt, |r.payload|)
  }

  ghost predicate Lawful(f: Framing) {
    forall i :: Law(f, i)
  }

  /** `r` is exactly what stands at the front of `b`. */
  ghost predicate ReadsBack(f: Framing, b: bytes, expected: nat, last: nat, r: Record) {
    f.storable(r) && r.sequence == expected && last <= r.recordedAt &&
    |f.encode(r)| <= |b| && b[..|f.encode(r)|] == f.encode(r)
  }

  // ----- record sequences -----

  function EncodeAll(f: Framing, rs: seq<Record>): bytes {
    if rs == [] then [] else f.encode(rs[0]) + EncodeAll(f, rs[1..])
  }

  lemma {:induction false} EncodeAllAppend(f: Framing, rs: seq<Record>, ts: seq<Record>)
    ensures EncodeAll(f, rs + ts) == EncodeAll(f, rs) + EncodeAll(f, ts)
  {
    if rs == [] {
      assert rs + ts == ts;
    } else {
      EncodeAllAppend(f, rs[1..], ts);
      assert (rs + ts)[1..] == rs[1..] + ts;
    }
  }

  lemma EncodeAllSnoc(f: Framing, rs: seq<Record>, r: Record)
    ensures EncodeAll(f, rs + [r]) == EncodeAll(f, rs) + f.encode(r)
  {
    EncodeAllAppend(f, rs, [r]);
    assert EncodeAll(f, [r]) == f.encode(r) + EncodeAll(f, []);
  }

  // ----- a whole file -----

  datatype Scanned =
    | Complete(records: seq<Record>) | Tail(records: seq<Record>, seen: nat) | Broken(error: WalError)

  function Before(rs: seq<Record>, s: Scanned): Scanned {
    match s
    case Complete(ts) => Complete(rs + ts)
    case Tail(ts, seen) => Tail(rs + ts, seen)
    case Broken(e) => Broken(e)
  }

  ghost function Scan(f: Framing, b: bytes, expected: nat, last: nat): Scanned
    decreases |b|
  {
    if b == [] then Complete([])
    else match f.parse(b, expected, last)
      case Torn(seen) => Tail([], seen)
      case Bad(e) => Broken(e)
      case One(r) =>
        var n := HEADER_BYTES + |r.payload|;
        if |b| < n then Broken(Corrupt)  // not with a lawful framing
        else Before([r], Scan(f, b[n..], expected + 1, r.recordedAt))
  }

  /** Consecutive sequences from `first`, admission times never going back past `last`. */
  predicate Chained(f: Framing, rs: seq<Record>, first: nat, last: nat) {
    rs == [] ||
    (rs[0].sequence == first && last <= rs[0].recordedAt && f.storable(rs[0]) &&
     Chained(f, rs[1..], first + 1, rs[0].recordedAt))
  }

  function LastTime(rs: seq<Record>, last: nat): nat {
    if rs == [] then last else rs[|rs| - 1].recordedAt
  }

  lemma {:induction false} ChainedConcat(f: Framing, rs: seq<Record>, ts: seq<Record>, first: nat, last: nat)
    ensures Chained(f, rs + ts, first, last) <==>
      Chained(f, rs, first, last) && Chained(f, ts, first + |rs|, LastTime(rs, last))
  {
    if rs == [] {
      assert rs + ts == ts;
    } else {
      ChainedConcat(f, rs[1..], ts, first + 1, rs[0].recordedAt);
      assert (rs + ts)[1..] == rs[1..] + ts;
      assert (rs + ts)[0] == rs[0];
    }
  }

  lemma {:induction false} ChainedAt(f: Framing, rs: seq<Record>, first: nat, last: nat, k: nat)
    requires Lawful(f)
    requires Chained(f, rs, first, last) && k < |rs|
    ensures rs[k].sequence == first + k && last <= rs[k].recordedAt && f.storable(rs[k])
    ensures rs[k].recordedAt <= LastTime(rs, last)
  {
    if k > 0 {
      ChainedAt(f, rs[1..], first + 1, rs[0].recordedAt, k - 1);
    } else if |rs| > 1 {
      ChainedAt(f, rs[1..], first + 1, rs[0].recordedAt, |rs| - 2);
    }
  }

  lemma {:induction false} ChainedWeaken(f: Framing, rs: seq<Record>, first: nat, last: nat, low: nat)
    requires Chained(f, rs, first, last) && low <= last
    ensures Chained(f, rs, first, low)
  {
  }

  lemma ScanPrepend(f: Framing, r: Record, rest: bytes, last: nat)
    requires Lawful(f)
    requires f.storable(r) && last <= r.recordedAt
    ensures Scan(f, f.encode(r) + rest, r.sequence, last)
      == Before([r], Scan(f, rest, r.sequence + 1, r.recordedAt))
  {
    assert Law(f, Size(r)) && Law(f, Whole(r, rest, last));
    assert (f.encode(r) + rest)[HEADER_BYTES + |r.payload|..] == rest;
  }

  lemma BeforeBefore(rs: seq<Record>, ts: seq<Record>, s: Scanned)
    ensures Before(rs, Before(ts, s)) == Before(rs + ts, s)
  {
    match s
    case Complete(us) => assert rs + (ts + us) == rs + ts + us;
    case Tail(us, _) => assert rs + (ts + us) == rs + ts + us;
    case Broken(e) =>
  }

  lemma BeforeNothing(s: Scanned)
    ensures Before([], s) == s
  {
    match s
    case Complete(ts) => assert [] + ts == ts;
    case Tail(ts, _) => assert [] + ts == ts;
    case Broken(e) =>
  }

  lemma EncodeAllSplit(f: Framing, rs: seq<Record>, rest: bytes)
    requires rs != []
    ensures EncodeAll(f, rs) + rest == f.encode(rs[0]) + (EncodeAll(f, rs[1..]) + rest)
  {
  }

  lemma ScanOverOne(f: Framing, rs: seq<Record>, rest: bytes, first: nat, last: nat, s: Scanned)
    requires Lawful(f) && rs != [] && rs[0].sequence == first && last <= rs[0].recordedAt && f.storable(rs[0])
    requires Scan(f, EncodeAll(f, rs[1..]) + rest, first + 1, rs[0].recordedAt) == Before(rs[1..], s)
    ensures Scan(f, EncodeAll(f, rs) + rest, first, last) == Before(rs, s)
  {
    EncodeAllSplit(f, rs, rest);
    ScanPrepend(f, rs[0], EncodeAll(f, rs[1..]) + rest, last);
    BeforeBefore([rs[0]], rs[1..], s);
    assert [rs[0]] + rs[1..] == rs;
  }

  /** Scanning past well-formed records: the scan of the rest decides the outcome. */
  lemma {:induction false} ScanOver(f: Framing, rs: seq<Record>, rest: bytes, first: nat, last: nat, s: Scanned)
    requires Lawful(f)
    requires Chained(f, rs, first, last)
    requires s == Scan(f, rest, first + |rs|, LastTime(rs, last))
    ensures Scan(f, EncodeAll(f, rs) + rest, first, last) == Before(rs, s)
  {
    if rs == [] {
      assert EncodeAll(f, rs) + rest == rest;
      BeforeNothing(s);
    } else {
      ScanOver(f, rs[1..], rest, first + 1, rs[0].recordedAt, s);
      ScanOverOne(f, rs, rest, first, last, s);
    }
  }

  /** A cleanly written file is recovered record for record. */
  lemma ScanEncoded(f: Framing, rs: seq<Record>, first: nat, last: nat)
    requires Lawful(f)
    requires Chained(f, rs, first, last)
    ensures Scan(f, EncodeAll(f, rs), first, last) == Complete(rs)
  {
    ScanOver(f, rs, [], first, last, Complete([]));
    assert EncodeAll(f, rs) + [] == EncodeAll(f, rs);
    assert rs + [] == rs;
  }

  /** A crash in the middle of the next record loses that record and nothing else; its time may have been seen. */
  lemma ScanCrashTail(f: Framing, rs: seq<Record>, r: Record, k: nat, first: nat, last: nat)
    requires Lawful(f)
    requires Chained(f, rs + [r], first, last) && 0 < k < |f.encode(r)|
    ensures Scan(f, EncodeAll(f, rs) + f.encode(r)[..k], first, last) == Tail(rs, SeenIn(r, k))
  {
    ChainedConcat(f, rs, [r], first, last);
    var torn := f.encode(r)[..k];
    assert Law(f, Cut(r, k, LastTime(rs, last)));
    assert torn != [];
    ScanOver(f, rs, torn, first, last, Tail([], SeenIn(r, k)));
    assert rs + [] == rs;
  }

  /** The two ways a scan step can end on bytes that are there. */
  lemma ScanUnfold(f: Framing, b: bytes, first: nat, last: nat) returns (r: Record, rest: bytes)
    requires Lawful(f)
    requires b != [] && f.parse(b, first, last).One?
    ensures r == f.parse(b, first, last).record
    ensures f.storable(r) && r.sequence == first && last <= r.recordedAt
    ensures b == f.encode(r) + rest && |rest| < |b|
    ensures Scan(f, b, first, last) == Before([r], Scan(f, rest, first + 1, r.recordedAt))
  {
    assert Law(f, Back(b, first, last)) && Law(f, Size(f.parse(b, first, last).record));
    r := f.parse(b, first, last).record;
    rest := b[HEADER_BYTES + |r.payload|..];
  }

  /** `b` is the encoding of `rs` followed by bytes that do not complete a record. */
  ghost predicate EndsTorn(f: Framing, b: bytes, rs: seq<Record>, seen: nat, first: nat, last: nat) {
    var n := |EncodeAll(f, rs)|;
    n < |b| && b[..n] == EncodeAll(f, rs) &&
    f.parse(b[n..], first + |rs|, LastTime(rs, last)) == Torn(seen)
  }

  lemma ScanSoundStep(f: Framing, r: Record, rest: bytes, ts: seq<Record>, seen: nat, first: nat, last: nat)
    requires Lawful(f)
    requires f.storable(r) && r.sequence == first && last <= r.recordedAt
    requires Chained(f, ts, first + 1, r.recordedAt)
    ensures Chained(f, [r] + ts, first, last)
    ensures EncodeAll(f, [r] + ts) == f.encode(r) + EncodeAll(f, ts)
    ensures EndsTorn(f, rest, ts, seen, first + 1, r.recordedAt) ==>
      EndsTorn(f, f.encode(r) + rest, [r] + ts, seen, first, last)
  {
    var rs := [r] + ts;
    assert rs[1..] == ts;
    assert LastTime(rs, last) == LastTime(ts, r.recordedAt);
    var b := f.encode(r) + rest;
    var n := |EncodeAll(f, ts)|;
    if n < |rest| {
      assert b[|f.encode(r)| + n..] == rest[n..];
      assert b[..|f.encode(r)| + n] == f.encode(r) + rest[..n];
    }
  }

  /** Acceptance is exact: the recovered records are well formed and re-encode to the bytes read. */
  lemma {:induction false} ScanSound(f: Framing, b: bytes, first: nat, last: nat)
    requires Lawful(f)
    ensures var s := Scan(f, b, first, last);
      && (s.Complete? ==> Chained(f, s.records, first, last) && b == EncodeAll(f, s.records))
      && (s.Tail? ==> Chained(f, s.records, first, last) && EndsTorn(f, b, s.records, s.seen, first, last))
    decreases |b|
  {
    if b == [] {
    } else if f.parse(b, first, last).Torn? {
      assert b[0..] == b;
    } else if f.parse(b, first, last).One? {
      var r, rest := ScanUnfold(f, b, first, last);
      ScanSound(f, rest, first + 1, r.recordedAt);
      var inner := Scan(f, rest, first + 1, r.recordedAt);
      if !inner.Broken? {
        ScanSoundStep(f, r, rest, inner.records, if inner.Tail? then inner.seen else 0, first, last);
      }
    }
  }

  // ----- the recovery loop -----

  datatype Segment = Segment(start: nat, end: nat, bytes: nat, records: nat, firstAt: nat, lastAt: nat)

  /** Earliest and latest time a scan of `rs` has met when the header it stopped at showed `seen`. */
  function FirstMet(rs: seq<Record>, seen: nat): nat {
    if rs == [] then seen else rs[0].recordedAt
  }

  function LastMet(rs: seq<Record>, seen: nat): nat {
    if seen == 0 then LastTime(rs, 0) else seen
  }

  /** The in-memory summary of a segment file that holds `rs`, scanned up to a torn record that showed `seen`. */
  function SegmentOf(f: Framing, start: nat, rs: seq<Record>, seen: nat): Segment
    requires start > 0
  {
    Segment(start, start + |rs| - 1, |EncodeAll(f, rs)|, |rs|, FirstMet(rs, seen), LastMet(rs, seen))
  }

  /** What opening a segment must answer, and what it leaves in the file. */
  ghost predicate ScanAnswer(f: Framing, file: bytes, start: nat, finalSegment: bool,
                             r: Result<Segment, WalError>, kept: bytes)
    requires start > 0
  {
    match Scan(f, file, start, 0)
    case Complete(rs) => r == Ok(SegmentOf(f, start, rs, 0)) && kept == file
    case Tail(rs, seen) =>
      if finalSegment then r == Ok(SegmentOf(f, start, rs, seen)) && kept == EncodeAll(f, rs)
      else r == Err(Corrupt) && kept == file
    case Broken(e) => r == Err(e) && kept == file
  }

  /** Where the scan stops, the walk so far is the answer. */
  lemma ScanStops(f: Framing, done: seq<Record>, b: bytes, expected: nat, last: nat)
    ensures b == [] ==> Before(done, Scan(f, b, expected, last)) == Complete(done)
    ensures b != [] && f.parse(b, expected, last).Torn? ==>
      Before(done, Scan(f, b, expected, last)) == Tail(done, f.parse(b, expected, last).seen)
    ensures b != [] && f.parse(b, expected, last).Bad? ==>
      Before(done, Scan(f, b, expected, last)) == Broken(f.parse(b, expected, last).error)
  {
    assert done + [] == done;
  }

  /** The walk over `done` as the answer, once it is known how the scan ends. */
  lemma Answered(f: Framing, file: bytes, start: nat, done: seq<Record>, seen: nat, g: Segment)
    requires start > 0 && g == SegmentOf(f, start, done, seen)
    requires g.bytes <= |file| && file[..g.bytes] == EncodeAll(f, done)
    ensures var s := Scan(f, file, start, 0);
      && (s == Complete(done) && seen == 0 ==> forall final :: ScanAnswer(f, file, start, final, Ok(g), file))
      && (s == Tail(done, seen) ==> ScanAnswer(f, file, start, true, Ok(g), file[..g.bytes]))
      && (s == Tail(done, seen) ==> ScanAnswer(f, file, start, false, Err(Corrupt), file))
      && (s.Broken? ==> forall final :: ScanAnswer(f, file, start, final, Err(s.error), file))
  {
    hide EncodeAll, Scan, SegmentOf;
  }

  method ScanSegment(f: Framing, file: bytes, start: nat, finalSegment: bool)
    returns (r: Result<Segment, WalError>, kept: bytes)
    requires Lawful(f) && start > 0
    ensures ScanAnswer(f, file, start, finalSegment, r, kept)
  {
    kept := file;
    var offset, expected, records, firstAt, lastAt := 0, start, 0, 0, 0;
    ghost var done: seq<Record> := [];
    assert file[0..] == file && EncodeAll(f, []) == [] && LastTime([], 0) == 0;
    BeforeNothing(Scan(f, file, start, 0));
    hide Lawful, Scan, Before, EncodeAll, LastTime, ScanAnswer;
    while offset < |file|
      invariant 0 <= offset <= |file|
      invariant file[..offset] == EncodeAll(f, done) && offset == |EncodeAll(f, done)|
      invariant expected == start + |done| && records == |done|
      invariant firstAt == FirstMet(done, 0) && lastAt == LastTime(done, 0)
      invariant done != [] ==> done[0].recordedAt > 0
      invariant Scan(f, file, start, 0) == Before(done, Scan(f, file[offset..], expected, lastAt))
    {
      var parsed := f.parse(file[offset..], expected, lastAt);
      ScanStops(f, done, file[offset..], expected, lastAt);
      if parsed.Torn? {
        if parsed.seen != 0 {
          // the header was whole: its time is taken over before the payload is found short
          if firstAt == 0 {
            firstAt := parsed.seen;
          }
          lastAt := parsed.seen;
        }
        var segment := Segment(start, expected - 1, offset, records, firstAt, lastAt);
        Answered(f, file, start, done, parsed.seen, segment);
        if finalSegment {
          kept := file[..offset];
          return Ok(segment), kept;
        }
        return Err(Corrupt), kept;
      } else if parsed.Bad? {
        Answered(f, file, start, done, 0, SegmentOf(f, start, done, 0));
        return Err(parsed.error), kept;
      }
      var record := parsed.record;
      var total := HEADER_BYTES + |record.payload|;
      AdvanceOver(f, file, start, offset, expected, lastAt, done, record);
      done := done + [record];
      if firstAt == 0 {
        firstAt := record.recordedAt;
      }
      lastAt := record.recordedAt;
      offset, expected, records := offset + total, expected + 1, records + 1;
    }
    assert file[offset..] == [];
    ScanStops(f, done, file[offset..], expected, lastAt);
    var segment := Segment(start, expected - 1, offset, records, firstAt, lastAt);
    Answered(f, file, start, done, 0, segment);
    return Ok(segment), kept;
  }

  lemma AdvanceOver(f: Framing, file: bytes, start: nat, offset: nat, expected: nat, lastAt: nat,
                    done: seq<Record>, record: Record)
    requires Lawful(f)
    requires offset < |file| && f.parse(file[offset..], expected, lastAt) == One(record)
    requires file[..offset] == EncodeAll(f, done) && offset == |EncodeAll(f, done)|
    requires Scan(f, file, start, 0) == Before(done, Scan(f, file[offset..], expected, lastAt))
    ensures var next := offset + HEADER_BYTES + |record.payload|;
      && next <= |file| && file[..next] == EncodeAll(f, done + [record]) && next == |EncodeAll(f, done + [record])|
      && record.recordedAt > 0 && LastTime(done + [record], 0) == record.recordedAt
      && Scan(f, file, start, 0) == Before(done + [record], Scan(f, file[next..], expected + 1, record.recordedAt))
  {
    var next := offset + HEADER_BYTES + |record.payload|;
    var r, rest := ScanUnfold(f, file[offset..], expected, lastAt);
    assert Law(f, Size(record));
    EncodeAllSnoc(f, done, record);
    hide EncodeAll, Scan, Lawful, Law;
    assert file == file[..offset] + file[offset..];
    Regroup(EncodeAll(f, done), f.encode(record), rest);
    assert file == EncodeAll(f, done + [record]) + rest;
    assert file[next..] == rest && file[..next] == EncodeAll(f, done + [record]);
    BeforeBefore(done, [record], Scan(f, rest, expected + 1, record.recordedAt));
  }
}
