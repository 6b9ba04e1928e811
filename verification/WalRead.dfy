/** Reading retained segments back: replay, and the admission time of the oldest pending record. */
module WalRead {
  import opened Prelude
  import opened WalScan
  import opened WalState

  /** The longest prefix within a record budget and a payload-byte budget. */
  function Take(rs: seq<Record>, maxRecords: nat, maxBytes: nat): seq<Record> {
    if rs == [] || maxRecords == 0 || |rs[0].payload| > maxBytes then []
    else [rs[0]] + Take(rs[1..], maxRecords - 1, maxBytes - |rs[0].payload|)
  }

  function PayloadBytes(rs: seq<Record>): nat {
    if rs == [] then 0 else |rs[0].payload| + PayloadBytes(rs[1..])
  }

  lemma {:induction false} PayloadBytesSnoc(rs: seq<Record>, r: Record)
    ensures PayloadBytes(rs + [r]) == PayloadBytes(rs) + |r.payload|
  {
    if rs != [] {
      PayloadBytesSnoc(rs[1..], r);
      assert (rs + [r])[1..] == rs[1..] + [r];
    }
  }

  /** Stopping at `p` is right when the prefix fits and one more record would not. */
  lemma {:induction false} TakeIs(rs: seq<Record>, p: nat, maxRecords: nat, maxBytes: nat)
    requires p <= |rs| && p <= maxRecords && PayloadBytes(rs[..p]) <= maxBytes
    requires p == |rs| || p == maxRecords || PayloadBytes(rs[..p]) + |rs[p].payload| > maxBytes
    ensures Take(rs, maxRecords, maxBytes) == rs[..p]
    decreases p
  {
    if p > 0 {
      assert rs[..p][0] == rs[0] && rs[..p][1..] == rs[1..][..p - 1];
      TakeIs(rs[1..], p - 1, maxRecords - 1, maxBytes - |rs[0].payload|);
      assert rs[..p] == [rs[0]] + rs[1..][..p - 1];
    }
  }

  // ----- reading a segment from its front -----

  ghost function ReadN(f: Framing, b: bytes, expected: nat, n: nat): Result<seq<Record>, WalError>
    decreases n
  {
    if n == 0 then Ok([])
    else match f.parse(b, expected, 0)
      case Torn(_) => Err(Io)
      case Bad(e) => Err(e)
      case One(r) =>
        var size := HEADER_BYTES + |r.payload|;
        if |b| < size then Err(Io)
        else match ReadN(f, b[size..], expected + 1, n - 1)
          case Err(e) => Err(e)
          case Ok(rs) => Ok([r] + rs)
  }

  /** Headers only: payloads are sought over, which may go past the end of the file. */
  ghost function TimeAfter(f: Framing, b: bytes, expected: nat, n: nat, checkpoint: nat): Result<Option<nat>, WalError>
    decreases n
  {
    if n == 0 then Ok(None)
    else match f.peek(b, expected)
      case Short => Err(Io)
      case Wrong(e) => Err(e)
      case Head(recordedAt, length) =>
        if expected > checkpoint then Ok(Some(recordedAt))
        else TimeAfter(f, SeekOver(b, HEADER_BYTES + length), expected + 1, n - 1, checkpoint)
  }

  function SeekOver(b: bytes, n: nat): bytes {
    if n <= |b| then b[n..] else []
  }

  lemma FrontOf(f: Framing, log: seq<Record>, first: nat, last: nat)
    requires Lawful(f) && log != [] && Chained(f, log, first, last)
    ensures f.parse(EncodeAll(f, log), first, 0) == One(log[0])
    ensures f.peek(EncodeAll(f, log), first) == Head(log[0].recordedAt, |log[0].payload|)
    ensures HEADER_BYTES + |log[0].payload| <= |EncodeAll(f, log)|
    ensures EncodeAll(f, log)[HEADER_BYTES + |log[0].payload|..] == EncodeAll(f, log[1..])
  {
    assert Law(f, Size(log[0])) && Law(f, Whole(log[0], EncodeAll(f, log[1..]), 0));
    assert Law(f, Peek(log[0], EncodeAll(f, log[1..])));
    assert EncodeAll(f, log) == f.encode(log[0]) + EncodeAll(f, log[1..]);
  }

  /** A well-formed segment reads back as its records. */
  lemma {:induction false} ReadEncoded(f: Framing, log: seq<Record>, first: nat, last: nat)
    requires Lawful(f) && Chained(f, log, first, last)
    ensures ReadN(f, EncodeAll(f, log), first, |log|) == Ok(log)
  {
    if log != [] {
      FrontOf(f, log, first, last);
      ReadEncoded(f, log[1..], first + 1, log[0].recordedAt);
      assert [log[0]] + log[1..] == log;
    }
  }

  lemma {:induction false} TimeAfterEncoded(f: Framing, log: seq<Record>, first: nat, last: nat, checkpoint: nat)
    requires Lawful(f) && Chained(f, log, first, last) && first <= checkpoint + 1 < first + |log|
    ensures TimeAfter(f, EncodeAll(f, log), first, |log|, checkpoint)
      == Ok(Some(log[checkpoint + 1 - first].recordedAt))
  {
    FrontOf(f, log, first, last);
    hide Lawful, EncodeAll;
    if first <= checkpoint {
      TimeAfterEncoded(f, log[1..], first + 1, log[0].recordedAt, checkpoint);
    }
  }

  method ReadSegmentRecords(f: Framing, content: bytes, segment: Segment) returns (r: Result<seq<Record>, WalError>)
    requires Lawful(f)
    ensures r == ReadN(f, content, segment.start, segment.records)
  {
    var result, offset, expected := [], 0, segment.start;
    assert content[0..] == content;
    assert forall rs: seq<Record> :: [] + rs == rs;
    for n := 0 to segment.records
      invariant expected == segment.start + n && offset <= |content|
      invariant ReadN(f, content, segment.start, segment.records) ==
        match ReadN(f, content[offset..], expected, segment.records - n)
        case Err(e) => Err(e)
        case Ok(rs) => Ok(result + rs)
    {
      var parsed := f.parse(content[offset..], expected, 0);
      if parsed.Torn? {
        return Err(Io);
      } else if parsed.Bad? {
        return Err(parsed.error);
      }
      var size := HEADER_BYTES + |parsed.record.payload|;
      assert Law(f, Back(content[offset..], expected, 0)) && Law(f, Size(parsed.record));
      assert content[offset + size..] == content[offset..][size..];
      assert forall rs: seq<Record> :: result + ([parsed.record] + rs) == result + [parsed.record] + rs;
      result, offset, expected := result + [parsed.record], offset + size, expected + 1;
    }
    assert result + [] == result;
    return Ok(result);
  }

  method FirstTimestampAfter(f: Framing, content: bytes, segment: Segment, checkpoint: nat)
    returns (r: Result<Option<nat>, WalError>)
    ensures r == TimeAfter(f, content, segment.start, segment.records, checkpoint)
  {
    var offset: nat, expected: nat := 0, segment.start;
    for n := 0 to segment.records
      invariant expected == segment.start + n
      invariant TimeAfter(f, content, segment.start, segment.records, checkpoint)
        == TimeAfter(f, SeekOver(content, offset), expected, segment.records - n, checkpoint)
    {
      var rest := SeekOver(content, offset);
      var peeked := f.peek(rest, expected);
      if peeked.Short? {
        return Err(Io);
      } else if peeked.Wrong? {
        return Err(peeked.error);
      }
      if expected > checkpoint {
        return Ok(Some(peeked.recordedAt));
      }
      var size := HEADER_BYTES + peeked.length;
      assert SeekOver(content, offset + size) == SeekOver(rest, size);
      offset, expected := offset + size, expected + 1;
    }
    return Ok(None);
  }

  // ----- records past a checkpoint -----

  function After(rs: seq<Record>, checkpoint: nat): seq<Record> {
    if rs == [] then []
    else if rs[0].sequence <= checkpoint then After(rs[1..], checkpoint)
    else [rs[0]] + After(rs[1..], checkpoint)
  }

  lemma {:induction false} AfterConcat(a: seq<Record>, b: seq<Record>, checkpoint: nat)
    ensures After(a + b, checkpoint) == After(a, checkpoint) + After(b, checkpoint)
  {
    if a == [] {
      assert a + b == b;
    } else {
      AfterConcat(a[1..], b, checkpoint);
      assert (a + b)[1..] == a[1..] + b && (a + b)[0] == a[0];
      Regroup([a[0]], After(a[1..], checkpoint), After(b, checkpoint));
    }
  }

  /** On consecutive sequences, "past the checkpoint" is a suffix. */
  lemma {:induction false} AfterIsSuffix(f: Framing, rs: seq<Record>, first: nat, last: nat, checkpoint: nat)
    requires Chained(f, rs, first, last)
    ensures After(rs, checkpoint) == if checkpoint < first then rs
      else if first + |rs| <= checkpoint + 1 then [] else rs[checkpoint + 1 - first..]
  {
    if rs != [] {
      AfterIsSuffix(f, rs[1..], first + 1, rs[0].recordedAt, checkpoint);
      assert rs == [rs[0]] + rs[1..];
    }
  }

  /** Take the records of one segment that are past the checkpoint until a budget is used up. */
  method ReplayRecords(records: seq<Record>, checkpoint: nat, taken: seq<Record>, takenBytes: nat,
                       maxRecords: nat, maxBytes: nat)
    returns (result: seq<Record>, bytes: nat, full: bool, ghost k: nat)
    requires |taken| <= maxRecords && takenBytes == PayloadBytes(taken) <= maxBytes
    ensures k <= |After(records, checkpoint)| && result == taken + After(records, checkpoint)[..k]
    ensures |result| <= maxRecords && bytes == PayloadBytes(result) <= maxBytes
    ensures full ==>
      k < |After(records, checkpoint)| && (|result| == maxRecords || bytes + |After(records, checkpoint)[k].payload| > maxBytes)
    ensures !full ==> k == |After(records, checkpoint)|
  {
    result, bytes, full, k := taken, takenBytes, false, 0;
    ghost var due := After(records, checkpoint);
    assert records[0..] == records;
    for j := 0 to |records|
      invariant k <= |due| && due[k..] == After(records[j..], checkpoint) && result == taken + due[..k]
      invariant |result| <= maxRecords && bytes == PayloadBytes(result) <= maxBytes
    {
      var record := records[j];
      assert records[j..][0] == record && records[j..][1..] == records[j + 1..];
      if record.sequence <= checkpoint {
        continue;
      }
      assert due[k..] == [record] + After(records[j + 1..], checkpoint);
      assert due[k] == due[k..][0] == record;
      if |result| == maxRecords || bytes + |record.payload| > maxBytes {
        full := true;
        return;
      }
      PayloadBytesSnoc(result, record);
      assert due[k + 1..] == due[k..][1..];
      assert due[..k + 1] == due[..k] + [record];
      result, bytes, k := result + [record], bytes + |record.payload|, k + 1;
    }
  }

  /** Stopping inside a segment because a budget is used up yields the longest allowed prefix. */
  lemma StoppedShort(unread: seq<Record>, before: seq<Record>, due: seq<Record>, rest: seq<Record>, k: nat,
                     maxRecords: nat, maxBytes: nat)
    requires unread == before + (due + rest) && k < |due|
    requires |before| + k <= maxRecords && PayloadBytes(before + due[..k]) <= maxBytes
    requires |before| + k == maxRecords || PayloadBytes(before + due[..k]) + |due[k].payload| > maxBytes
    ensures Take(unread, maxRecords, maxBytes) == before + due[..k]
  {
    assert unread[..|before| + k] == before + due[..k];
    TakeIs(unread, |before| + k, maxRecords, maxBytes);
  }

  // ----- the retention cursor -----

  /**
   The oldest pending time as the log looks it up: the first segment with a
   record past the checkpoint answers with its own first time when none of its
   records is checkpointed, and with the record's time otherwise.  `dues` are
   the pending records of each segment.
   */
  function Cursor(segments: seq<Segment>, dues: seq<seq<Record>>, checkpoint: nat): Option<nat>
    requires |segments| == |dues|
  {
    if segments == [] then None
    else if segments[0].records == 0 || segments[0].end <= checkpoint then Cursor(segments[1..], dues[1..], checkpoint)
    else if checkpoint < segments[0].start then Some(segments[0].firstAt)
    else OldestOf(dues[0])
  }
}
