/**
 The segmented write-ahead log itself.  Every operation is proved against the
 list of records the log holds (`Contents`) and the part of it past the
 checkpoint (`Unread`).
 */
module Wal {
  import opened Prelude
  import opened WalScan
  import opened WalState
  import opened WalRecovery
  import opened WalRead

  // ----- opening a directory -----

  /** A directory listing in name order; segment names are unique. */
  predicate Listed(files: seq<SegmentFile>) {
    forall i, j :: 0 <= i < j < |files| ==> files[i].start < files[j].start
  }

  lemma StartsDiffer(files: seq<SegmentFile>, i: nat)
    requires Listed(files) && i < |files|
    ensures i + 1 < |files| ==> files[i].start != files[i + 1].start
  {
  }

  /** Why a directory is refused, or nothing. */
  ghost function OpenError(f: Framing, l: Limits, files: seq<SegmentFile>, checkpoint: nat): Option<WalError> {
    var o := OpenSegments(f, files, 1, 0);
    if !LimitsValid(l) then Some(InvalidLimit)
    else if o.Refused? then Some(o.error)
    else if |Flat(o.logs)| < checkpoint then Some(Corrupt)
    else if |EncodeAll(f, Flat(o.logs))| > l.maxBytes || |Flat(o.logs)| > l.maxRecords then Some(Full)
    else None
  }

  function UnderAll(done: seq<seq<Record>>, seen: nat, o: Opened): Opened {
    match o
    case Opened(logs, later) => Opened(done + logs, if logs == [] then seen else later)
    case Refused(e) => Refused(e)
  }

  lemma UnderAllStep(done: seq<seq<Record>>, was: nat, log: seq<Record>, seen: nat, o: Opened)
    ensures UnderAll(done, was, Under(log, seen, o)) == UnderAll(done + [log], seen, o)
  {
    if o.Opened? {
      assert done + ([log] + o.logs) == done + [log] + o.logs;
    }
  }

  lemma {:induction false} OpenedNothing(f: Framing, files: seq<SegmentFile>, expected: nat, last: nat)
    ensures UnderAll([], 0, OpenSegments(f, files, expected, last)) == OpenSegments(f, files, expected, last)
  {
    var o := OpenSegments(f, files, expected, last);
    if o.Opened? {
      assert [] + o.logs == o.logs;
    }
  }

  lemma ChainedFrom(f: Framing, log: seq<Record>, first: nat, last: nat)
    requires Chained(f, log, first, 0) && (log == [] || last <= log[0].recordedAt)
    ensures Chained(f, log, first, last)
  {
  }

  /** What the walk has established about the files it has passed, `all` being their records. */
  ghost predicate Walked(f: Framing, files: seq<SegmentFile>, segments: seq<Segment>, logs: seq<seq<Record>>,
                         all: seq<Record>)
  {
    all == Flat(logs) && Placed(f, files, segments, logs, 1) && Chained(f, all, 1, 0) && OnlyLastEmpty(logs)
  }

  lemma ExtendAll(f: Framing, files: seq<SegmentFile>, segments: seq<Segment>, logs: seq<seq<Record>>,
                  all: seq<Record>, log: seq<Record>)
    requires Walked(f, files, segments, logs, all) && Chained(f, log, 1 + |all|, LastTime(all, 0))
    ensures Chained(f, all + log, 1, 0)
    ensures EncodeAll(f, all + log) == EncodeAll(f, all) + EncodeAll(f, log)
    ensures LastTime(all + log, 0) == LastTime(log, LastTime(all, 0))
  {
    ChainedConcat(f, all, log, 1, 0);
    EncodeAllAppend(f, all, log);
  }

  lemma WalkOne(f: Framing, files: seq<SegmentFile>, segments: seq<Segment>, logs: seq<seq<Record>>,
                all: seq<Record>, log: seq<Record>, g: Segment)
    requires Walked(f, files, segments, logs, all) && (logs != [] ==> logs[|logs| - 1] != [])
    requires Chained(f, all + log, 1, 0) && Summary(f, g, 1 + |all|, log)
    ensures Walked(f, files + [SegmentFile(1 + |all|, EncodeAll(f, log))], segments + [g], logs + [log], all + log)
  {
    PlacedSnoc(f, files, segments, logs, 1, log, g);
    FlatSnoc(logs, log);
  }

  lemma SummarisedSnoc(f: Framing, segments: seq<Segment>, logs: seq<seq<Record>>, log: seq<Record>, seen: nat)
    requires Summarised(f, segments, logs, 0)
    ensures Summarised(f, segments + [SegmentOf(f, 1 + |Flat(logs)|, log, seen)], logs + [log], seen)
  {
    var grown, n := logs + [log], |logs|;
    var all := segments + [SegmentOf(f, 1 + |Flat(logs)|, log, seen)];
    assert grown[..n] == logs;
    forall i | 0 <= i < |grown|
      ensures all[i] == SegmentOf(f, StartOf(grown, 1, i), grown[i], if i == n then seen else 0)
    {
      if i < n {
        assert grown[..i] == logs[..i];
      }
    }
  }

  lemma FenceSnoc(logs: seq<seq<Record>>, log: seq<Record>, seen: nat)
    ensures Fence(logs + [log], seen) == if log == [] then Fence(logs, 0) else LastMet(log, seen)
  {
    FlatSnoc(logs, log);
  }

  /** The log kept from one file, from the answer of its scan. */
  lemma KeptFromScan(f: Framing, file: SegmentFile, finalSegment: bool, scan: Result<Segment, WalError>, content: bytes)
    returns (log: seq<Record>, seen: nat)
    requires Lawful(f) && file.start > 0 && ScanAnswer(f, file.content, file.start, finalSegment, scan, content)
    ensures scan.Err? ==> Kept(f, file, finalSegment) == Refused(scan.error)
    ensures scan.Ok? ==>
      && Kept(f, file, finalSegment) == Opened([log], seen) && (finalSegment || seen == 0)
      && scan.value == SegmentOf(f, file.start, log, seen) && Summary(f, scan.value, file.start, log)
      && content == EncodeAll(f, log) && Chained(f, log, file.start, 0) && (seen == 0 || LastTime(log, 0) <= seen)
  {
    ScanSound(f, file.content, file.start, 0);
    var s := Scan(f, file.content, file.start, 0);
    log := if s.Broken? then [] else s.records;
    seen := if s.Tail? then s.seen else 0;
    hide EncodeAll, Scan;
    if log != [] {
      assert Law(f, Size(log[0]));
    }
    if s.Tail? {
      assert Law(f, Back(file.content[|EncodeAll(f, log)|..], file.start + |log|, LastTime(log, 0)));
    }
  }

  /** One step of the walk, from the log kept from its file. */
  lemma OpenStep(f: Framing, files: seq<SegmentFile>, expected: nat, last: nat, kept: Opened)
    requires files != [] && kept == Kept(f, files[0], |files| == 1)
    ensures files[0].start != expected ==> OpenSegments(f, files, expected, last) == Refused(Corrupt)
    ensures files[0].start == expected && kept.Refused? ==> OpenSegments(f, files, expected, last) == kept
    ensures files[0].start == expected && kept.Opened? ==>
      var log := kept.logs[0];
      OpenSegments(f, files, expected, last) ==
      if log != [] && log[0].recordedAt < last then Refused(ClockUnprovable)
      else Under(log, kept.seen, OpenSegments(f, files[1..], expected + |log|, LastTime(log, last)))
  {
  }

  /** The walk so far, as an equation on the whole walk. */
  ghost predicate Ahead(f: Framing, files: seq<SegmentFile>, i: nat, logs: seq<seq<Record>>, seen: nat,
                        expected: nat, last: nat)
  {
    i <= |files| &&
    OpenSegments(f, files, 1, 0) == UnderAll(logs, seen, OpenSegments(f, files[i..], expected, last))
  }

  lemma AheadOne(f: Framing, files: seq<SegmentFile>, i: nat, logs: seq<seq<Record>>, was: nat, expected: nat, last: nat,
                 log: seq<Record>, seen: nat)
    requires i < |files| && Ahead(f, files, i, logs, was, expected, last)
    requires files[i].start == expected && Kept(f, files[i], i + 1 == |files|) == Opened([log], seen)
    requires log == [] || last <= log[0].recordedAt
    ensures Ahead(f, files, i + 1, logs + [log], seen, expected + |log|, LastTime(log, last))
  {
    OpenStep(f, files[i..], expected, last, Opened([log], seen));
    assert files[i..][1..] == files[i + 1..];
    hide OpenSegments, Kept;
    UnderAllStep(logs, was, log, seen, OpenSegments(f, files[i + 1..], expected + |log|, LastTime(log, last)));
  }

  /** Where the walk stands before file `i`. */
  ghost predicate At(f: Framing, files: seq<SegmentFile>, i: nat, kept: seq<SegmentFile>, segments: seq<Segment>,
                     logs: seq<seq<Record>>, all: seq<Record>, seen: nat)
  {
    && |logs| == i && Walked(f, kept, segments, logs, all) && Summarised(f, segments, logs, seen)
    && Ahead(f, files, i, logs, seen, 1 + |all|, LastTime(all, 0))
  }

  lemma AheadStops(f: Framing, files: seq<SegmentFile>, i: nat, kept: seq<SegmentFile>, segments: seq<Segment>,
                   logs: seq<seq<Record>>, all: seq<Record>)
    requires i < |files| && At(f, files, i, kept, segments, logs, all, 0)
    ensures var k, o := Kept(f, files[i], i + 1 == |files|), OpenSegments(f, files, 1, 0);
      && (files[i].start != 1 + |all| ==> o == Refused(Corrupt))
      && (files[i].start == 1 + |all| && k.Refused? ==> o == k)
      && (files[i].start == 1 + |all| && k.Opened? && k.logs[0] != [] && k.logs[0][0].recordedAt < LastTime(all, 0) ==>
            o == Refused(ClockUnprovable))
  {
    OpenStep(f, files[i..], 1 + |all|, LastTime(all, 0), Kept(f, files[i], i + 1 == |files|));
  }

  lemma WalkEnds(f: Framing, files: seq<SegmentFile>, kept: seq<SegmentFile>, segments: seq<Segment>,
                 logs: seq<seq<Record>>, all: seq<Record>, seen: nat)
    requires At(f, files, |files|, kept, segments, logs, all, seen)
    ensures OpenSegments(f, files, 1, 0) == Opened(logs, seen)
    ensures Walked(f, kept, segments, logs, all) && Summarised(f, segments, logs, seen)
  {
    assert files[|files|..] == [];
    assert logs + [] == logs;
  }

  lemma FenceUntorn(f: Framing, files: seq<SegmentFile>, i: nat, kept: seq<SegmentFile>, segments: seq<Segment>,
                    logs: seq<seq<Record>>, all: seq<Record>)
    requires At(f, files, i, kept, segments, logs, all, 0)
    ensures Fence(logs, 0) == LastTime(all, 0) && all == Flat(logs)
  {
  }

  lemma WalkStarts(f: Framing, files: seq<SegmentFile>)
    ensures At(f, files, 0, [], [], [], [], 0) && EncodeAll(f, []) == [] && LastTime([], 0) == Fence([], 0) == 0
  {
    OpenedNothing(f, files, 1, 0);
    assert files[0..] == files;
  }

  lemma WalkRecords(f: Framing, kept: seq<SegmentFile>, segments: seq<Segment>, logs: seq<seq<Record>>,
                    all: seq<Record>, log: seq<Record>, seen: nat, g: Segment)
    requires Walked(f, kept, segments, logs, all) && Summarised(f, segments, logs, 0)
    requires logs != [] ==> logs[|logs| - 1] != []
    requires Chained(f, log, 1 + |all|, LastTime(all, 0))
    requires g == SegmentOf(f, 1 + |all|, log, seen) && Summary(f, g, 1 + |all|, log)
    ensures Walked(f, kept + [SegmentFile(1 + |all|, EncodeAll(f, log))], segments + [g], logs + [log], all + log)
    ensures Summarised(f, segments + [g], logs + [log], seen)
    ensures |EncodeAll(f, all + log)| == |EncodeAll(f, all)| + |EncodeAll(f, log)|
    ensures LastTime(all + log, 0) == LastTime(log, LastTime(all, 0))
  {
    assert all == Flat(logs);
    hide Summarised, Walked, EncodeAll, Flat, Chained, Summary, SegmentOf;
    ExtendAll(f, kept, segments, logs, all, log);
    WalkOne(f, kept, segments, logs, all, log, g);
    SummarisedSnoc(f, segments, logs, log, seen);
  }

  lemma WalkStep(f: Framing, files: seq<SegmentFile>, i: nat, kept: seq<SegmentFile>, segments: seq<Segment>,
                 logs: seq<seq<Record>>, all: seq<Record>, log: seq<Record>, seen: nat, g: Segment)
    requires i < |files| && At(f, files, i, kept, segments, logs, all, 0) && (logs != [] ==> logs[|logs| - 1] != [])
    requires files[i].start == 1 + |all| && Kept(f, files[i], i + 1 == |files|) == Opened([log], seen)
    requires Chained(f, log, 1 + |all|, 0) && (log == [] || LastTime(all, 0) <= log[0].recordedAt)
    requires g == SegmentOf(f, 1 + |all|, log, seen) && Summary(f, g, 1 + |all|, log)
    ensures At(f, files, i + 1, kept + [SegmentFile(1 + |all|, EncodeAll(f, log))], segments + [g], logs + [log],
               all + log, seen)
    ensures |EncodeAll(f, all + log)| == |EncodeAll(f, all)| + |EncodeAll(f, log)|
    ensures LastTime(all + log, 0) == LastTime(log, LastTime(all, 0))
  {
    hide Ahead, Summarised, Walked, EncodeAll, Flat, Chained, Kept, Summary, SegmentOf, OpenSegments;
    AheadOne(f, files, i, logs, 0, 1 + |all|, LastTime(all, 0), log, seen);
    ChainedFrom(f, log, 1 + |all|, LastTime(all, 0));
    WalkRecords(f, kept, segments, logs, all, log, seen, g);
  }

  /** One file of the walk: it must start where the last one ended, scan, and not go back in time. */
  method WalkFile(f: Framing, files: seq<SegmentFile>, i: nat, expected: nat, lastAt: nat, ghost kept: seq<SegmentFile>,
                  ghost segments: seq<Segment>, ghost logs: seq<seq<Record>>, ghost all: seq<Record>)
    returns (r: Result<Segment, WalError>, content: bytes, ghost log: seq<Record>, ghost met: nat)
    requires Lawful(f) && i < |files| && At(f, files, i, kept, segments, logs, all, 0)
    requires expected == 1 + |all| && lastAt == LastTime(all, 0)
    requires logs != [] && logs[|logs| - 1] == [] ==> files[i].start != expected
    ensures r.Err? ==> OpenSegments(f, files, 1, 0) == Refused(r.error)
    ensures r.Ok? ==> files[i].start == expected && (i + 1 == |files| || met == 0)
    ensures r.Ok? ==> r.value == SegmentOf(f, expected, log, met) && (met == 0 || LastTime(log, 0) <= met)
    ensures r.Ok? ==> At(f, files, i + 1, kept + [SegmentFile(expected, content)], segments + [r.value], logs + [log],
                         all + log, met)
    ensures r.Ok? ==> |EncodeAll(f, all + log)| == |EncodeAll(f, all)| + |EncodeAll(f, log)|
    ensures r.Ok? ==> LastTime(all + log, 0) == LastTime(log, LastTime(all, 0))
  {
    hide Lawful, Flat, OpenSegments, Scan, Walked, Ahead, EncodeAll, Summarised, At, Kept;
    var file, finalSegment := files[i], i + 1 == |files|;
    AheadStops(f, files, i, kept, segments, logs, all);
    content, log, met := [], [], 0;
    if file.start != expected {
      return Err(Corrupt), content, log, met;
    }
    var scan, left := ScanSegment(f, file.content, expected, finalSegment);
    log, met := KeptFromScan(f, file, finalSegment, scan, left);
    if scan.Ok? && scan.value.records > 0 && scan.value.firstAt < lastAt {
      return Err(ClockUnprovable), content, log, met;
    }
    if scan.Ok? {
      WalkStep(f, files, i, kept, segments, logs, all, log, met, scan.value);
    }
    return scan, left, log, met;
  }

  /** Scan every segment in order; a torn tail is cut off the last file, but the time it showed is kept. */
  method WalkSegments(f: Framing, files: seq<SegmentFile>)
    returns (error: Option<WalError>, kept: seq<SegmentFile>, segments: seq<Segment>,
             bytes: nat, records: nat, lastAt: nat, ghost logs: seq<seq<Record>>, ghost all: seq<Record>, ghost seen: nat)
    requires Lawful(f) && Listed(files)
    ensures error == match OpenSegments(f, files, 1, 0) case Refused(e) => Some(e) case Opened(_, _) => None
    ensures error.None? ==> OpenSegments(f, files, 1, 0) == Opened(logs, seen)
    ensures error.None? ==>
      && Walked(f, kept, segments, logs, all) && |logs| == |files| && Summarised(f, segments, logs, seen)
      && LastTime(all, 0) <= lastAt == Fence(logs, seen) && bytes == |EncodeAll(f, all)| && records == |all|
  {
    hide Lawful, Flat, OpenSegments, Scan, Walked, Ahead, EncodeAll, Summarised, Fence, At, Kept, Listed, UnderAll, StartOf;
    kept, segments, bytes, records, lastAt, logs, all, seen := [], [], 0, 0, 0, [], [], 0;
    var expected: nat, i := 1, 0;
    WalkStarts(f, files);
    while i < |files|
      invariant i <= |files| && |logs| == i && At(f, files, i, kept, segments, logs, all, seen)
      invariant expected == 1 + |all| && LastTime(all, 0) <= lastAt == Fence(logs, seen) && (i < |files| ==> seen == 0)
      invariant i > 0 && i < |files| && logs[i - 1] == [] ==> files[i].start != expected
      invariant bytes == |EncodeAll(f, all)| && records == |all|
    {
      FenceUntorn(f, files, i, kept, segments, logs, all);
      var scan, content;
      ghost var log, met;
      scan, content, log, met := WalkFile(f, files, i, expected, lastAt, kept, segments, logs, all);
      if scan.Err? {
        error := Some(scan.error);
        return;
      }
      var segment := scan.value;
      FenceSnoc(logs, log, met);
      StartsDiffer(files, i);
      if segment.records > 0 {
        lastAt := segment.lastAt;
      }
      kept, segments := kept + [SegmentFile(expected, content)], segments + [segment];
      logs, all, seen := logs + [log], all + log, met;
      expected, bytes, records := segment.end + 1, bytes + segment.bytes, records + segment.records;
      i := i + 1;
    }
    WalkEnds(f, files, kept, segments, logs, all, seen);
    error := None;
  }

  lemma EmptyWalked(f: Framing)
    ensures Walked(f, [SegmentFile(1, [])], [Segment(1, 0, 0, 0, 0, 0)], [[]], [])
    ensures Summarised(f, [Segment(1, 0, 0, 0, 0, 0)], [[]], 0) && Fence([[]], 0) == 0
  {
    FlatOne([]);
  }

  lemma WalkedCore(f: Framing, l: Limits, s: State, logs: seq<seq<Record>>, all: seq<Record>)
    requires LimitsValid(l) && logs != [] && Walked(f, s.files, s.segments, logs, all)
    requires s.stats == Stats(|EncodeAll(f, all)|, |all|, |all|, s.checkpointFile) && LastTime(all, 0) <= s.lastRecordedAt
    requires s.stats.bytes <= l.maxBytes && s.stats.records <= l.maxRecords && s.checkpointFile <= |all|
    ensures Core(f, l, s, logs) && FirstSequence(s) == 1 && Pending(s, Flat(logs)) == all[s.checkpointFile..]
  {
    assert logs[..0] == [];
    assert FirstSequence(s) == StartOf(logs, 1, 0);
  }

  /** The checks of opening, on values; the retention cursor is still to be computed. */
  method Recover(f: Framing, l: Limits, dir: seq<SegmentFile>, checkpoint: nat)
    returns (r: Result<State, WalError>, ghost logs: seq<seq<Record>>)
    requires Lawful(f) && Listed(dir)
    ensures r.Err? ==> OpenError(f, l, dir, checkpoint) == Some(r.error)
    ensures r.Ok? ==> OpenAccepts(f, l, dir, checkpoint) && Core(f, l, r.value, logs) && FirstSequence(r.value) == 1
    ensures r.Ok? ==> var o := OpenSegments(f, dir, 1, 0);
      logs == WithSegment(o.logs) && Flat(logs) == Flat(o.logs) && Restored(f, r.value, logs, o.seen)
    ensures r.Ok? ==> r.value.stats.checkpoint == checkpoint
    ensures r.Ok? ==> r.value.stats.lastSequence == |Flat(logs)| && Pending(r.value, Flat(logs)) == Flat(logs)[checkpoint..]
  {
    if !LimitsValid(l) {
      r, logs := Err(InvalidLimit), [];
      return;
    }
    var error, kept, segments, bytes, records, lastAt;
    ghost var all, seen;
    error, kept, segments, bytes, records, lastAt, logs, all, seen := WalkSegments(f, dir);
    if error.Some? {
      r := Err(error.value);
      return;
    }
    if checkpoint > records {
      r := Err(Corrupt);
      return;
    }
    if bytes > l.maxBytes || records > l.maxRecords {
      r := Err(Full);
      return;
    }
    if segments == [] {
      kept, segments, logs := [SegmentFile(1, [])], [Segment(1, 0, 0, 0, 0, 0)], [[]];
      EmptyWalked(f);
    }
    var s := State(kept, checkpoint, segments, Stats(bytes, records, records, checkpoint), None, lastAt);
    WalkedCore(f, l, s, logs, all);
    r := Ok(s);
  }

  // ----- retention -----

  /** The fence every operation passes first: the clock must not have gone back, nothing may be too old. */
  function RetentionError(s: State, l: Limits, now: nat): Option<WalError> {
    if now < s.lastRecordedAt then Some(ClockUnprovable)
    else if s.oldestPending.Some? && now - s.oldestPending.value > l.maxAgeSeconds * 1000 then Some(RetentionExpired)
    else None
  }

  lemma PendingNoEarlier(f: Framing, l: Limits, s: State, all: seq<Record>, i: nat)
    requires Lawful(f) && Counted(f, l, s, all) && i < |Pending(s, all)|
    ensures Pending(s, all)[0].recordedAt <= Pending(s, all)[i].recordedAt
  {
    var k := s.stats.checkpoint + 1 - FirstSequence(s);
    var before, pending := all[..k], all[k..];
    assert before + pending == all;
    ChainedConcat(f, before, pending, FirstSequence(s), 0);
    if i > 0 {
      ChainedAt(f, pending[1..], FirstSequence(s) + k + 1, pending[0].recordedAt, i - 1);
    }
  }

  /** While the segment times are exact, an operation passes the fence iff the clock has not gone back and no unread record is too old. */
  lemma RetentionExactly(f: Framing, l: Limits, s: State, logs: seq<seq<Record>>, now: nat)
    requires Lawful(f) && Inv(f, l, s, logs) && Dated(s.segments, logs)
    ensures RetentionError(s, l, now).None? <==>
      && s.lastRecordedAt <= now
      && forall i :: 0 <= i < |Pending(s, Flat(logs))| ==>
           now - Pending(s, Flat(logs))[i].recordedAt <= 1000 * l.maxAgeSeconds
    ensures RetentionError(s, l, now) == Some(ClockUnprovable) <==> now < s.lastRecordedAt
    ensures RetentionError(s, l, now).Some? ==> RetentionError(s, l, now).value in {ClockUnprovable, RetentionExpired}
  {
    hide Lawful, Flat, Placed, OnlyLastEmpty, LimitsValid, Dated;
    var all := Flat(logs);
    var pending := Pending(s, all);
    assert s.oldestPending == OldestOf(pending);
    forall i | 0 <= i < |pending|
      ensures pending[0].recordedAt <= pending[i].recordedAt
    {
      PendingNoEarlier(f, l, s, all, i);
    }
    hide Inv, Core, Counted, Pending;
    if RetentionError(s, l, now).None? {
      forall i | 0 <= i < |pending|
        ensures now - pending[i].recordedAt <= 1000 * l.maxAgeSeconds
      {
        assert pending[0].recordedAt <= pending[i].recordedAt;
      }
    } else if s.lastRecordedAt <= now {
      assert now - pending[0].recordedAt > 1000 * l.maxAgeSeconds;
    }
  }

  // ----- appending -----

  /** Why an append is refused, in the order the checks are made. */
  function AppendError(f: Framing, l: Limits, s: State, payload: bytes, checkedAt: nat, recordedAt: nat): Option<WalError> {
    if RetentionError(s, l, checkedAt).Some? then RetentionError(s, l, checkedAt)
    else if |payload| > l.maxRecordBytes then Some(RecordTooLarge)
    else if s.stats.bytes + HEADER_BYTES + |payload| > l.maxBytes || s.stats.records + 1 > l.maxRecords then Some(Full)
    else if recordedAt < s.lastRecordedAt then Some(ClockUnprovable)
    else if !f.storable(Record(s.stats.lastSequence + 1, recordedAt, payload)) then Some(RecordTooLarge)
    else None
  }

  /** An append is accepted iff the fence lets it through and the log with the record added still keeps every limit. */
  lemma AppendExactly(f: Framing, l: Limits, s: State, logs: seq<seq<Record>>, payload: bytes, checkedAt: nat, recordedAt: nat)
    requires Lawful(f) && Inv(f, l, s, logs)
    ensures var r := Record(FirstSequence(s) + |Flat(logs)|, recordedAt, payload);
      AppendError(f, l, s, payload, checkedAt, recordedAt).None? <==>
      && RetentionError(s, l, checkedAt).None? && |payload| <= l.maxRecordBytes && s.lastRecordedAt <= recordedAt && f.storable(r)
      && |EncodeAll(f, Flat(logs) + [r])| <= l.maxBytes && |Flat(logs) + [r]| <= l.maxRecords
  {
    var r := Record(FirstSequence(s) + |Flat(logs)|, recordedAt, payload);
    assert Law(f, Size(r));
    EncodeAllSnoc(f, Flat(logs), r);
    hide Lawful, Flat, Placed, OnlyLastEmpty, EncodeAll, Chained, Pending, RetentionError;
  }

  /** Valid limits are never self-defeating: an empty log has room for the largest record allowed. */
  lemma EmptyLogAccepts(f: Framing, l: Limits, payload: bytes, now: nat)
    requires LimitsValid(l) && |payload| <= l.maxRecordBytes && f.storable(Record(1, now, payload))
    ensures AppendError(f, l, FRESH, payload, now, now).None?
  {
  }

  /** There are records in the last segment file, and this one does not fit behind them. */
  predicate Crowded(l: Limits, files: seq<SegmentFile>, payload: bytes)
    requires files != []
  {
    var held := |files[|files| - 1].content|;
    held > 0 && held + HEADER_BYTES + |payload| > l.segmentBytes
  }

  /** The files after an accepted append: the record in a file of its own, or behind the last one's records. */
  predicate Placement(f: Framing, l: Limits, was: seq<SegmentFile>, files: seq<SegmentFile>, r: Record)
    requires was != []
  {
    var n := |was| - 1;
    && files == (if Crowded(l, was, r.payload) then was + [SegmentFile(r.sequence, f.encode(r))]
                 else was[..n] + [SegmentFile(was[n].start, was[n].content + f.encode(r))])
    && |files[|files| - 1].content| <= l.segmentBytes
  }

  lemma LastSegmentBytes(f: Framing, l: Limits, s: State, logs: seq<seq<Record>>)
    requires Core(f, l, s, logs)
    ensures s.segments[|logs| - 1].bytes == |s.files[|logs| - 1].content|
  {
  }

  lemma PlacedWithin(f: Framing, l: Limits, s: State, logs: seq<seq<Record>>, r: Record)
    requires Lawful(f) && Core(f, l, s, logs) && f.storable(r) && |r.payload| <= l.maxRecordBytes
    requires r.sequence == s.stats.lastSequence + 1
    ensures var mid := if Crowded(l, s.files, r.payload) then Rotated(s) else s;
      Placement(f, l, s.files, Pushed(f, mid, r).files, r)
  {
    assert Law(f, Size(r));
    hide Lawful, Law, Counted, Placed, OnlyLastEmpty;
    var crowded := Crowded(l, s.files, r.payload);
    var mid := if crowded then Rotated(s) else s;
    var files, n := Pushed(f, mid, r).files, |s.files| - 1;
    assert files[..|files| - 1] == mid.files[..|mid.files| - 1];
    if crowded {
      assert mid.files[..|s.files|] == s.files;
      assert [] + f.encode(r) == f.encode(r);
    }
  }

  // ----- replay -----

  /** What reading segment `i` yields: `due` are its records past the checkpoint. */
  ghost predicate DueAt(f: Framing, s: State, i: nat, due: seq<Record>)
    requires i < |s.segments| == |s.files|
  {
    var g, content, c := s.segments[i], s.files[i].content, s.stats.checkpoint;
    var read := ReadN(f, content, g.start, g.records);
    && read.Ok? && After(read.value, c) == due
    && (g.records == 0 || g.end <= c ==> due == [])
    && (g.records != 0 && g.end > c ==> due != [])
    && (g.records != 0 && g.end > c && c >= g.start ==>
          TimeAfter(f, content, g.start, g.records, c) == Ok(Some(due[0].recordedAt)))
  }

  ghost predicate AllDue(f: Framing, s: State, dues: seq<seq<Record>>) {
    && |s.segments| == |s.files| == |dues|
    && forall i {:trigger DueAt(f, s, i, dues[i])} :: 0 <= i < |dues| ==> DueAt(f, s, i, dues[i])
  }

  /** A segment that starts past the checkpoint is pending as a whole. */
  ghost predicate WholeDue(s: State, logs: seq<seq<Record>>, dues: seq<seq<Record>>) {
    && |s.segments| == |logs| == |dues|
    && forall i :: 0 <= i < |logs| && s.stats.checkpoint < s.segments[i].start ==> dues[i] == logs[i]
  }

  function AfterEach(logs: seq<seq<Record>>, checkpoint: nat): seq<seq<Record>> {
    if logs == [] then [] else [After(logs[0], checkpoint)] + AfterEach(logs[1..], checkpoint)
  }

  lemma {:induction false} AfterEachAt(logs: seq<seq<Record>>, checkpoint: nat, i: nat)
    requires i < |logs|
    ensures |AfterEach(logs, checkpoint)| == |logs| && AfterEach(logs, checkpoint)[i] == After(logs[i], checkpoint)
    decreases |logs|
  {
    if i > 0 {
      AfterEachAt(logs[1..], checkpoint, i - 1);
    } else if |logs| > 1 {
      AfterEachAt(logs[1..], checkpoint, 0);
    }
  }

  lemma {:induction false} AfterEachLength(logs: seq<seq<Record>>, checkpoint: nat)
    ensures |AfterEach(logs, checkpoint)| == |logs|
  {
    if logs != [] {
      AfterEachLength(logs[1..], checkpoint);
    }
  }

  /** The retention cursor of segments that hold `logs`. */
  ghost function CursorOf(segments: seq<Segment>, logs: seq<seq<Record>>, checkpoint: nat): Option<nat>
    requires |segments| == |logs|
  {
    AfterEachLength(logs, checkpoint);
    Cursor(segments, AfterEach(logs, checkpoint), checkpoint)
  }

  lemma {:induction false} AfterEachFlat(logs: seq<seq<Record>>, checkpoint: nat)
    ensures Flat(AfterEach(logs, checkpoint)) == After(Flat(logs), checkpoint)
  {
    if logs != [] {
      AfterEachFlat(logs[1..], checkpoint);
      AfterConcat(logs[0], Flat(logs[1..]), checkpoint);
      var each := AfterEach(logs, checkpoint);
      assert each[0] == After(logs[0], checkpoint) && each[1..] == AfterEach(logs[1..], checkpoint);
    }
  }

  lemma SegmentDue(f: Framing, s: State, log: seq<Record>, i: nat)
    requires Lawful(f) && i < |s.segments| == |s.files| && s.segments[i].start > 0
    requires Summary(f, s.segments[i], s.segments[i].start, log) && s.files[i].content == EncodeAll(f, log)
    requires Chained(f, log, s.segments[i].start, 0)
    ensures DueAt(f, s, i, After(log, s.stats.checkpoint))
    ensures s.stats.checkpoint < s.segments[i].start ==> After(log, s.stats.checkpoint) == log
  {
    var start, c := s.segments[i].start, s.stats.checkpoint;
    ReadEncoded(f, log, start, 0);
    AfterIsSuffix(f, log, start, 0, c);
    if log != [] && start <= c < start + |log| - 1 {
      TimeAfterEncoded(f, log, start, 0, c);
    }
  }

  /** The pending records, segment by segment. */
  lemma CoreDue(f: Framing, l: Limits, s: State, logs: seq<seq<Record>>) returns (dues: seq<seq<Record>>)
    requires Lawful(f) && Core(f, l, s, logs)
    ensures AllDue(f, s, dues) && WholeDue(s, logs, dues) && Flat(dues) == Pending(s, Flat(logs))
    ensures CursorOf(s.segments, logs, s.stats.checkpoint) == Cursor(s.segments, dues, s.stats.checkpoint)
  {
    dues := AfterEach(logs, s.stats.checkpoint);
    AfterEachFlat(logs, s.stats.checkpoint);
    AfterIsSuffix(f, Flat(logs), FirstSequence(s), 0, s.stats.checkpoint);
    hide Lawful, Flat, EncodeAll, Chained, DueAt, After, AfterEach, Cursor;
    forall i | 0 <= i < |logs|
      ensures |dues| == |logs| && DueAt(f, s, i, dues[i])
      ensures s.stats.checkpoint < s.segments[i].start ==> dues[i] == logs[i]
    {
      AfterEachAt(logs, s.stats.checkpoint, i);
      CoreDueAt(f, l, s, logs, i);
    }
    AfterEachAt(logs, s.stats.checkpoint, 0);
  }

  lemma CoreDueAt(f: Framing, l: Limits, s: State, logs: seq<seq<Record>>, i: nat)
    requires Lawful(f) && Core(f, l, s, logs) && i < |logs|
    ensures DueAt(f, s, i, After(logs[i], s.stats.checkpoint))
    ensures s.stats.checkpoint < s.segments[i].start ==> After(logs[i], s.stats.checkpoint) == logs[i]
  {
    SegmentChained(f, logs, FirstSequence(s), i);
    hide Lawful, Flat, EncodeAll, Chained, DueAt, After;
    assert Summary(f, s.segments[i], StartOf(logs, FirstSequence(s), i), logs[i]);
    SegmentDue(f, s, logs[i], i);
  }

  lemma FlatFrom(dues: seq<seq<Record>>, i: nat)
    requires i < |dues|
    ensures Flat(dues[i..]) == dues[i] + Flat(dues[i + 1..])
  {
    assert dues[i..][0] == dues[i] && dues[i..][1..] == dues[i + 1..];
  }

  /** Read the segments in order until the budgets are used up. */
  method ReplayFiles(f: Framing, s: State, maxRecords: nat, maxBytes: nat, ghost dues: seq<seq<Record>>)
    returns (result: seq<Record>)
    requires Lawful(f) && AllDue(f, s, dues)
    ensures result == Take(Flat(dues), maxRecords, maxBytes)
  {
    var bytes, i := 0, 0;
    result := [];
    assert bytes == PayloadBytes(result) && Flat([]) == [];
    hide Lawful, Flat, After, ReadN, TimeAfter, PayloadBytes, Take;
    ghost var unread, rest := Flat(dues), Flat(dues);
    assert dues[0..] == dues && [] + unread == unread;
    while i < |s.segments|
      invariant 0 <= i <= |s.segments|
      invariant unread == result + rest && rest == Flat(dues[i..])
      invariant |result| <= maxRecords && bytes == PayloadBytes(result) <= maxBytes
    {
      var segment := s.segments[i];
      assert DueAt(f, s, i, dues[i]);
      FlatFrom(dues, i);
      ghost var before, due := result, dues[i];
      rest := Flat(dues[i + 1..]);
      if segment.records == 0 || segment.end <= s.stats.checkpoint {
        assert due + rest == rest;
        i := i + 1;
        continue;
      }
      var read := ReadSegmentRecords(f, s.files[i].content, segment);
      var full;
      ghost var k;
      result, bytes, full, k := ReplayRecords(read.value, s.stats.checkpoint, result, bytes, maxRecords, maxBytes);
      if full {
        StoppedShort(unread, before, due, rest, k, maxRecords, maxBytes);
        return;
      }
      Regroup(before, due, rest);
      assert result == before + due;
      i := i + 1;
    }
    assert dues[i..] == [] && result + [] == result;
    assert unread[..|result|] == result;
    TakeIs(unread, |result|, maxRecords, maxBytes);
  }

  lemma CursorFrom(segments: seq<Segment>, dues: seq<seq<Record>>, i: nat, checkpoint: nat)
    requires i < |segments| == |dues|
    ensures Cursor(segments[i..], dues[i..], checkpoint) ==
      if segments[i].records == 0 || segments[i].end <= checkpoint then Cursor(segments[i + 1..], dues[i + 1..], checkpoint)
      else if checkpoint < segments[i].start then Some(segments[i].firstAt)
      else OldestOf(dues[i])
  {
    assert segments[i..][1..] == segments[i + 1..] && dues[i..][1..] == dues[i + 1..];
  }

  /** The retention cursor, read back from the segment that answers if need be. */
  method OldestPendingTimestamp(f: Framing, s: State, ghost dues: seq<seq<Record>>) returns (r: Result<Option<nat>, WalError>)
    requires AllDue(f, s, dues)
    ensures r == Ok(Cursor(s.segments, dues, s.stats.checkpoint))
  {
    hide After, ReadN, TimeAfter, Cursor;
    var i := 0;
    assert s.segments[0..] == s.segments && dues[0..] == dues;
    while i < |s.segments|
      invariant 0 <= i <= |s.segments|
      invariant Cursor(s.segments, dues, s.stats.checkpoint) == Cursor(s.segments[i..], dues[i..], s.stats.checkpoint)
    {
      var segment := s.segments[i];
      assert DueAt(f, s, i, dues[i]);
      CursorFrom(s.segments, dues, i, s.stats.checkpoint);
      if segment.records == 0 || segment.end <= s.stats.checkpoint {
        i := i + 1;
        continue;
      }
      if s.stats.checkpoint < segment.start {
        return Ok(Some(segment.firstAt));
      }
      r := FirstTimestampAfter(f, s.files[i].content, segment, s.stats.checkpoint);
      return;
    }
    assert s.segments[i..] == [] && dues[i..] == [];
    CursorOfNothing(s.stats.checkpoint);
    return Ok(None);
  }

  lemma CursorOfNothing(checkpoint: nat)
    ensures Cursor([], [], checkpoint) == None
  {
  }

  /** What the cursor says of the pending records, from segment `i` on. */
  lemma {:induction false} CursorSuits(f: Framing, s: State, logs: seq<seq<Record>>, dues: seq<seq<Record>>, i: nat)
    requires AllDue(f, s, dues) && WholeDue(s, logs, dues) && i <= |logs|
    ensures CursorFits(Cursor(s.segments[i..], dues[i..], s.stats.checkpoint), Flat(dues[i..]), Dated(s.segments, logs))
    decreases |logs| - i
  {
    if i == |logs| {
      assert s.segments[i..] == [] && dues[i..] == [];
    } else {
      CursorSuits(f, s, logs, dues, i + 1);
      CursorFrom(s.segments, dues, i, s.stats.checkpoint);
      FlatFrom(dues, i);
      assert DueAt(f, s, i, dues[i]);
    }
  }

  /**
   Single-writer segmented log.  Reads of the system clock are parameters.  The
   ghost field `logs` lists the records of each segment file.
   */
  class DurableWal {
    const framing: Framing
    const limits: Limits
    var files: seq<SegmentFile>
    var checkpointFile: nat
    var segments: seq<Segment>
    var stats: Stats
    var oldestPending: Option<nat>
    var lastRecordedAt: nat
    ghost var logs: seq<seq<Record>>

    ghost function View(): State
      reads this
    {
      State(files, checkpointFile, segments, stats, oldestPending, lastRecordedAt)
    }

    ghost predicate Valid()
      reads this
    {
      Lawful(framing) && Inv(framing, limits, View(), logs)
    }

    /** Every record the directory still holds. */
    ghost function Contents(): seq<Record>
      reads this
    {
      Flat(logs)
    }

    /** Every record past the checkpoint. */
    ghost function Unread(): seq<Record>
      requires Valid()
      reads this
    {
      Pending(View(), Flat(logs))
    }

    /** The segment times are those of the records held, and will stay so. */
    ghost predicate Timely()
      reads this
    {
      Dated(segments, logs) && Unmarked(segments)
    }

    constructor (f: Framing, l: Limits, s: State, ghost ls: seq<seq<Record>>)
      ensures framing == f && limits == l && View() == s && logs == ls
    {
      framing, limits := f, l;
      files, checkpointFile, segments := s.files, s.checkpointFile, s.segments;
      stats, oldestPending, lastRecordedAt := s.stats, s.oldestPending, s.lastRecordedAt;
      logs := ls;
    }

    /** Open and recover a directory, cutting only an incomplete final tail. */
    static method Open(f: Framing, l: Limits, dir: seq<SegmentFile>, checkpoint: nat)
      returns (r: Result<DurableWal, WalError>)
      requires Lawful(f) && Listed(dir)
      ensures r.Err? ==> OpenError(f, l, dir, checkpoint) == Some(r.error)
      ensures r.Ok? ==> OpenAccepts(f, l, dir, checkpoint)
      ensures r.Ok? ==> fresh(r.value) && r.value.Valid() && r.value.framing == f && r.value.limits == l
      ensures r.Ok? ==> r.value.stats.checkpoint == checkpoint
      ensures r.Ok? ==> var all := Flat(OpenSegments(f, dir, 1, 0).logs);
        r.value.stats.lastSequence == |all| && r.value.Unread() == all[checkpoint..]
      ensures r.Ok? ==> r.value.oldestPending == OldestOf(r.value.Unread())
      ensures r.Ok? ==> var o := OpenSegments(f, dir, 1, 0);
        r.value.lastRecordedAt == Fence(o.logs, o.seen) && (r.value.Timely() <==> !MarkedByTear(o.logs, o.seen))
    {
      hide Lawful, Flat, Counted, Placed, OnlyLastEmpty, LimitsValid, Dated;
      var recovered, logs := Recover(f, l, dir, checkpoint);
      if recovered.Err? {
        return Err(recovered.error);
      }
      SummarisedTimes(f, recovered.value.segments, logs, OpenSegments(f, dir, 1, 0).seen);
      var wal := new DurableWal(f, l, recovered.value, logs);
      wal.Settle();
      return Ok(wal);
    }

    /** Last steps of opening: find the oldest pending record, then compact. */
    method Settle()
      requires Sound() && Dated(segments, logs)
      modifies this
      ensures Valid() && Unread() == old(Pending(View(), Flat(logs))) && oldestPending == OldestOf(Unread())
      ensures Dated(segments, logs) && (Unmarked(segments) <==> old(Unmarked(segments))) && lastRecordedAt == old(lastRecordedAt)
      ensures stats.checkpoint == old(stats.checkpoint) && stats.lastSequence == old(stats.lastSequence)
    {
      hide Lawful, Flat, Counted, Placed, OnlyLastEmpty, LimitsValid, Dated;
      RefreshOldest();
      Compact();
    }

    /** Append one record; `checkedAt` and `recordedAt` are the two clock reads it makes. */
    method Append(payload: bytes, checkedAt: nat, recordedAt: nat) returns (r: Result<nat, WalError>)
      requires Valid()
      modifies this
      ensures Valid()
      ensures r.Err? <==> AppendError(framing, limits, old(View()), payload, checkedAt, recordedAt).Some?
      ensures r.Err? ==> Some(r.error) == AppendError(framing, limits, old(View()), payload, checkedAt, recordedAt)
      ensures r.Err? ==> Contents() == old(Contents()) && Unread() == old(Unread()) && stats == old(stats)
      ensures r.Err? && files != old(files) ==>
        Crowded(limits, old(files), payload) && files == old(files) + [SegmentFile(stats.lastSequence + 1, [])]
      ensures r.Ok? ==> r.value == old(stats.lastSequence) + 1 == stats.lastSequence
      ensures r.Ok? ==> Contents() == old(Contents()) + [Record(r.value, recordedAt, payload)]
      ensures r.Ok? ==> Unread() == old(Unread()) + [Record(r.value, recordedAt, payload)]
      ensures r.Ok? ==> Placement(framing, limits, old(files), files, Record(r.value, recordedAt, payload))
      ensures FirstSequence(View()) == old(FirstSequence(View())) && stats.checkpoint == old(stats.checkpoint)
      ensures old(Timely()) ==> Timely()
    {
      hide Lawful, Flat, Counted, Placed, OnlyLastEmpty, LimitsValid, Dated, Placement;
      var s := State(files, checkpointFile, segments, stats, oldestPending, lastRecordedAt);
      var retention := RetentionError(s, limits, checkedAt);
      if retention.Some? {
        return Err(retention.value);
      }
      if |payload| > limits.maxRecordBytes {
        return Err(RecordTooLarge);
      }
      var size := HEADER_BYTES + |payload|;
      if stats.bytes + size > limits.maxBytes || stats.records + 1 > limits.maxRecords {
        return Err(Full);
      }
      CoreFacts(framing, limits, s, logs);
      LastSegmentBytes(framing, limits, s, logs);
      ghost var held := logs;
      var current := segments[|segments| - 1].bytes;
      if current > 0 && current + size > limits.segmentBytes {
        Rotate();
      }
      var record := Record(stats.lastSequence + 1, recordedAt, payload);
      if recordedAt < lastRecordedAt {
        return Err(ClockUnprovable);
      }
      if !framing.storable(record) {
        return Err(RecordTooLarge);
      }
      Commit(record);
      PlacedWithin(framing, limits, s, held, record);
      return Ok(record.sequence);
    }

    /** The record passed every check: write it and keep the books. */
    method Commit(record: Record)
      requires Valid() && framing.storable(record)
      requires record.sequence == stats.lastSequence + 1 && lastRecordedAt <= record.recordedAt
      requires stats.bytes + HEADER_BYTES + |record.payload| <= limits.maxBytes && stats.records + 1 <= limits.maxRecords
      modifies this
      ensures Valid() && View() == Pushed(framing, old(View()), record)
      ensures Contents() == old(Contents()) + [record] && Unread() == old(Unread()) + [record]
      ensures old(Timely()) ==> Timely()
    {
      hide Lawful, Flat, Counted, Placed, OnlyLastEmpty, LimitsValid, Dated;
      PushKeeps(framing, limits, View(), logs, record);
      Write(record);
      logs := Extended(logs, record);
    }

    /** Write and sync the encoded record, then account for it. */
    method Write(record: Record)
      requires |files| == |segments| > 0
      modifies this
      ensures View() == Pushed(framing, old(View()), record) && logs == old(logs)
    {
      var n, size := |segments| - 1, HEADER_BYTES + |record.payload|;
      var segment := segments[n];
      files := files[n := SegmentFile(files[n].start, files[n].content + framing.encode(record))];
      segments := segments[n := Segment(segment.start, record.sequence, segment.bytes + size, segment.records + 1,
                                        if segment.firstAt == 0 then record.recordedAt else segment.firstAt,
                                        record.recordedAt)];
      stats := Stats(stats.bytes + size, stats.records + 1, record.sequence, stats.checkpoint);
      if oldestPending.None? {
        oldestPending := Some(record.recordedAt);
      }
      lastRecordedAt := record.recordedAt;
    }

    /** Start a new empty segment after the last record. */
    method Rotate()
      requires Valid() && logs[|logs| - 1] != []
      modifies this
      ensures Valid() && View() == Rotated(old(View()))
      ensures Contents() == old(Contents()) && Unread() == old(Unread())
      ensures old(Timely()) ==> Timely()
    {
      hide Lawful, Flat, Counted, Placed, OnlyLastEmpty, LimitsValid, Dated;
      RotateKeeps(framing, limits, View(), logs);
      AddSegment();
      logs := logs + [[]];
    }

    method AddSegment()
      requires segments != []
      modifies this
      ensures View() == Rotated(old(View())) && logs == old(logs)
    {
      var start := stats.lastSequence + 1;
      files := files + [SegmentFile(start, [])];
      segments := segments + [Segment(start, start - 1, 0, 0, 0, 0)];
    }

    // ----- replay -----

    /** The pending records, oldest first, as many as the budgets allow. */
    method Replay(maxRecords: nat, maxBytes: nat, now: nat) returns (r: Result<seq<Record>, WalError>)
      requires Valid()
      ensures r == match ReplayError(View(), limits, maxRecords, maxBytes, now)
        case Some(e) => Err(e)
        case None => Ok(Take(Unread(), maxRecords, maxBytes))
    {
      hide Lawful, Flat, Counted, Placed, OnlyLastEmpty, LimitsValid, Dated;
      var s := State(files, checkpointFile, segments, stats, oldestPending, lastRecordedAt);
      var error := ReplayError(s, limits, maxRecords, maxBytes, now);
      if error.Some? {
        return Err(error.value);
      }
      ghost var dues := CoreDue(framing, limits, s, logs);
      var result := ReplayFiles(framing, s, maxRecords, maxBytes, dues);
      return Ok(result);
    }

    // ----- checkpoints -----

    /** All of `Valid` but the retention cursor, which a checkpoint recomputes last. */
    ghost predicate Sound()
      reads this
    {
      Lawful(framing) && Core(framing, limits, View(), logs)
    }

    /** Advance the durable checkpoint, then drop segments that hold nothing pending. */
    method Checkpoint(sequence: nat, now: nat) returns (r: Result<(), WalError>)
      requires Valid()
      modifies this
      ensures Valid()
      ensures r.Err? <==> CheckpointError(old(View()), limits, sequence, now).Some?
      ensures r.Err? ==> Some(r.error) == CheckpointError(old(View()), limits, sequence, now) && View() == old(View())
      ensures r.Err? ==> Contents() == old(Contents())
      ensures r.Ok? ==> stats.checkpoint == checkpointFile == sequence && stats.lastSequence == old(stats.lastSequence)
      ensures r.Ok? ==> 0 <= sequence - old(stats.checkpoint) <= |old(Unread())|
      ensures r.Ok? ==> Unread() == old(Unread())[sequence - old(stats.checkpoint)..]
      ensures r.Ok? && sequence != old(stats.checkpoint) ==> |segments| == 1 || segments[0].end > sequence
      ensures r.Ok? && sequence != old(stats.checkpoint) ==> oldestPending == CursorOf(segments, logs, stats.checkpoint)
      ensures old(Timely()) ==> Timely() && oldestPending == OldestOf(Unread())
    {
      hide Lawful, Flat, Counted, Placed, OnlyLastEmpty, LimitsValid, Dated;
      var s := State(files, checkpointFile, segments, stats, oldestPending, lastRecordedAt);
      var retention := RetentionError(s, limits, now);
      if retention.Some? {
        return Err(retention.value);
      }
      if sequence < stats.checkpoint || sequence > stats.lastSequence {
        return Err(CheckpointOutOfRange);
      }
      if sequence == stats.checkpoint {
        CoreFacts(framing, limits, s, logs);
        return Ok(());
      }
      Move(sequence);
      return Ok(());
    }

    /** The checkpoint passed its checks: make it durable, compact, refresh the retention cursor. */
    method Move(sequence: nat)
      requires Valid() && stats.checkpoint <= sequence <= stats.lastSequence
      modifies this
      ensures Valid() && stats.checkpoint == checkpointFile == sequence && stats.lastSequence == old(stats.lastSequence)
      ensures 0 <= sequence - old(stats.checkpoint) <= |old(Unread())|
      ensures Unread() == old(Unread())[sequence - old(stats.checkpoint)..]
      ensures |segments| == 1 || segments[0].end > sequence
      ensures oldestPending == CursorOf(segments, logs, stats.checkpoint) && (old(Timely()) ==> Timely())
    {
      hide Lawful, Pending, CheckpointFits, FirstSequence, Flat, Counted, Placed, OnlyLastEmpty, LimitsValid, Dated;
      Advance(sequence);
      Compact();
      RefreshOldest();
    }

    /** Replace the durable checkpoint file. */
    method Advance(sequence: nat)
      requires Sound() && stats.checkpoint <= sequence <= stats.lastSequence
      modifies this
      ensures Sound() && View() == Advanced(old(View()), sequence) && logs == old(logs)
      ensures 0 <= sequence - old(stats.checkpoint) <= |old(Pending(View(), Flat(logs)))|
      ensures Pending(View(), Flat(logs)) == old(Pending(View(), Flat(logs)))[sequence - old(stats.checkpoint)..]
    {
      hide Lawful, Flat, Counted, Placed, OnlyLastEmpty, LimitsValid, Dated;
      AdvanceKeepsCore(framing, limits, View(), logs, sequence);
      checkpointFile := sequence;
      stats := stats.(checkpoint := sequence);
    }

    /** Recompute the retention cursor after a checkpoint. */
    method RefreshOldest()
      requires Sound()
      modifies this`oldestPending
      ensures Valid() && Unread() == old(Pending(View(), Flat(logs)))
      ensures oldestPending == CursorOf(segments, logs, stats.checkpoint)
    {
      hide Lawful, Flat, Counted, Placed, OnlyLastEmpty, LimitsValid, CursorOf, Cursor, Dated;
      var s := State(files, checkpointFile, segments, stats, oldestPending, lastRecordedAt);
      ghost var dues := CoreDue(framing, limits, s, logs);
      CursorSuits(framing, s, logs, dues, 0);
      assert s.segments[0..] == s.segments && dues[0..] == dues;
      var oldest := OldestPendingTimestamp(framing, s, dues);
      CursorIrrelevant(framing, limits, s, logs, oldest.value);
      oldestPending := oldest.value;
    }

    /** Drop leading segments whose last record is checkpointed; the newest segment always stays. */
    method Compact()
      requires Sound()
      modifies this
      ensures Sound() && |logs| <= |old(logs)| && logs == old(logs)[|old(logs)| - |logs|..]
      ensures Pending(View(), Flat(logs)) == old(Pending(View(), Flat(logs)))
      ensures stats.checkpoint == old(stats.checkpoint) && stats.lastSequence == old(stats.lastSequence)
      ensures oldestPending == old(oldestPending) && checkpointFile == old(checkpointFile)
      ensures old(Dated(segments, logs)) ==> Dated(segments, logs)
      ensures (Unmarked(segments) <==> old(Unmarked(segments))) && lastRecordedAt == old(lastRecordedAt)
      ensures |segments| == 1 || segments[0].end > stats.checkpoint
    {
      hide Lawful, Flat, Counted, Placed, OnlyLastEmpty, LimitsValid, Dated;
      while |segments| > 1
        invariant Sound() && |logs| <= |old(logs)| && logs == old(logs)[|old(logs)| - |logs|..]
        invariant Pending(View(), Flat(logs)) == old(Pending(View(), Flat(logs)))
        invariant stats.checkpoint == old(stats.checkpoint) && stats.lastSequence == old(stats.lastSequence)
        invariant oldestPending == old(oldestPending) && checkpointFile == old(checkpointFile)
        invariant old(Dated(segments, logs)) ==> Dated(segments, logs)
        invariant (Unmarked(segments) <==> old(Unmarked(segments))) && lastRecordedAt == old(lastRecordedAt)
      {
        var removable := segments[0].records == 0 || segments[0].end <= stats.checkpoint;
        if !removable {
          break;
        }
        FirstSegmentFull();
        DropFirst();
      }
    }

    method DropFirst()
      requires Sound() && |segments| > 1 && segments[0].end <= stats.checkpoint
      modifies this
      ensures Sound() && logs == old(logs)[1..]
      ensures Pending(View(), Flat(logs)) == old(Pending(View(), Flat(logs)))
      ensures stats.checkpoint == old(stats.checkpoint) && stats.lastSequence == old(stats.lastSequence)
      ensures oldestPending == old(oldestPending) && checkpointFile == old(checkpointFile)
      ensures old(Dated(segments, logs)) ==> Dated(segments, logs)
      ensures (Unmarked(segments) <==> old(Unmarked(segments))) && lastRecordedAt == old(lastRecordedAt)
    {
      hide Lawful, Flat, Counted, Placed, OnlyLastEmpty, LimitsValid, Dated;
      DropKeepsCore(framing, limits, View(), logs);
      RemoveFirst();
      logs := logs[1..];
    }

    lemma FirstSegmentFull()
      requires Sound() && |segments| > 1
      ensures segments[0].records > 0
    {
      assert logs[0] != [];
    }

    method RemoveFirst()
      requires files != [] && segments != []
      requires segments[0].bytes <= stats.bytes && segments[0].records <= stats.records
      modifies this
      ensures View() == Dropped(old(View())) && logs == old(logs)
    {
      var segment := segments[0];
      files, segments := files[1..], segments[1..];
      stats := stats.(bytes := stats.bytes - segment.bytes, records := stats.records - segment.records);
    }
  }

  function ReplayError(s: State, l: Limits, maxRecords: nat, maxBytes: nat, now: nat): Option<WalError> {
    if RetentionError(s, l, now).Some? then RetentionError(s, l, now)
    else if maxRecords == 0 || maxBytes == 0 then Some(InvalidLimit)
    else None
  }

  function CheckpointError(s: State, l: Limits, sequence: nat, now: nat): Option<WalError> {
    if RetentionError(s, l, now).Some? then RetentionError(s, l, now)
    else if sequence < s.stats.checkpoint || sequence > s.stats.lastSequence then Some(CheckpointOutOfRange)
    else None
  }
}
