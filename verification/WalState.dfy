/**
 The state of one segmented log: the files on disk, the in-memory summary of
 each segment, and the counters.  `Inv` ties all of it to the records the log
 holds (`logs`, one list per segment); the lemmas show that every update the
 log makes keeps it.
 */
module WalState {
  import opened Prelude
  import opened WalScan

  datatype Limits = Limits(
    maxBytes: nat, maxRecords: nat, segmentBytes: nat, maxRecordBytes: nat, maxAgeSeconds: nat)

  predicate LimitsValid(l: Limits) {
    l.segmentBytes <= l.maxBytes && l.maxRecords != 0 && l.maxRecordBytes != 0 &&
    0 < l.maxAgeSeconds <= 86400 && HEADER_BYTES + l.maxRecordBytes <= l.segmentBytes
  }

  datatype SegmentFile = SegmentFile(start: nat, content: bytes)
  datatype Stats = Stats(bytes: nat, records: nat, lastSequence: nat, checkpoint: nat)

  datatype State = State(
    files: seq<SegmentFile>,       // the directory, ordered by segment name
    checkpointFile: nat,           // durable checkpoint, 0 when absent
    segments: seq<Segment>,
    stats: Stats,
    oldestPending: Option<nat>,
    lastRecordedAt: nat)

  // ----- records held by a list of segments -----

  function Flat(logs: seq<seq<Record>>): seq<Record> {
    if logs == [] then [] else logs[0] + Flat(logs[1..])
  }

  lemma {:induction false} FlatConcat(a: seq<seq<Record>>, b: seq<seq<Record>>)
    ensures Flat(a + b) == Flat(a) + Flat(b)
  {
    if a == [] {
      assert a + b == b;
    } else {
      FlatConcat(a[1..], b);
      assert (a + b)[1..] == a[1..] + b && (a + b)[0] == a[0];
      Regroup(a[0], Flat(a[1..]), Flat(b));
    }
  }

  lemma FlatOne(log: seq<Record>)
    ensures Flat([log]) == log
  {
    assert [log][1..] == [];
  }

  lemma FlatSnoc(logs: seq<seq<Record>>, log: seq<Record>)
    ensures Flat(logs + [log]) == Flat(logs) + log
  {
    FlatConcat(logs, [log]);
    FlatOne(log);
  }

  /** Sequence at which segment `i` starts when the first one starts at `first`. */
  function StartOf(logs: seq<seq<Record>>, first: nat, i: nat): nat
    requires i <= |logs|
  {
    first + |Flat(logs[..i])|
  }

  lemma SegmentChained(f: Framing, logs: seq<seq<Record>>, first: nat, i: nat)
    requires i < |logs| && Chained(f, Flat(logs), first, 0)
    ensures Chained(f, logs[i], StartOf(logs, first, i), 0)
  {
    var before, after := Flat(logs[..i]), Flat(logs[i + 1..]);
    FlatConcat(logs[..i], [logs[i]] + logs[i + 1..]);
    assert logs[..i] + ([logs[i]] + logs[i + 1..]) == logs;
    assert ([logs[i]] + logs[i + 1..])[1..] == logs[i + 1..];
    ChainedConcat(f, before, logs[i] + after, first, 0);
    ChainedConcat(f, logs[i], after, first + |before|, LastTime(before, 0));
    ChainedWeaken(f, logs[i], first + |before|, LastTime(before, 0), 0);
  }

  /** What a segment's summary and its file always agree on; the times are a matter of their own (`Dated`). */
  ghost predicate Summary(f: Framing, g: Segment, start: nat, rs: seq<Record>) {
    g.start == start && g.end == start + |rs| - 1 && g.bytes == |EncodeAll(f, rs)| && g.records == |rs| &&
    (rs != [] ==> g.firstAt > 0)
  }

  ghost predicate Placed(f: Framing, files: seq<SegmentFile>, segments: seq<Segment>,
                         logs: seq<seq<Record>>, first: nat)
    requires first > 0
  {
    && |files| == |logs| && |segments| == |logs|
    && (forall i :: 0 <= i < |logs| ==> files[i] == SegmentFile(StartOf(logs, first, i), EncodeAll(f, logs[i])))
    && (forall i :: 0 <= i < |logs| ==> Summary(f, segments[i], StartOf(logs, first, i), logs[i]))
  }

  /** Every segment that holds a record carries the time of its first one. */
  ghost predicate Dated(segments: seq<Segment>, logs: seq<seq<Record>>) {
    && |segments| == |logs|
    && forall i :: 0 <= i < |logs| && logs[i] != [] ==> segments[i].firstAt == logs[i][0].recordedAt
  }

  /** The last segment carries no time while it is empty, so its first record will set it. */
  predicate Unmarked(segments: seq<Segment>) {
    segments != [] && (segments[|segments| - 1].records == 0 ==> segments[|segments| - 1].firstAt == 0)
  }

  ghost predicate OnlyLastEmpty(logs: seq<seq<Record>>) {
    forall i :: 0 <= i < |logs| - 1 ==> logs[i] != []
  }

  /** Sequence of the oldest record the directory may still hold. */
  function FirstSequence(s: State): nat
    requires s.files != []
  {
    s.files[0].start
  }

  predicate CheckpointFits(s: State, all: seq<Record>) {
    s.files != [] && FirstSequence(s) <= s.stats.checkpoint + 1 <= FirstSequence(s) + |all|
  }

  /** Records after the checkpoint: what the log still owes its reader. */
  function Pending(s: State, all: seq<Record>): seq<Record>
    requires CheckpointFits(s, all)
  {
    all[s.stats.checkpoint + 1 - FirstSequence(s)..]
  }

  function OldestOf(pending: seq<Record>): Option<nat> {
    if pending == [] then None else Some(pending[0].recordedAt)
  }

  /** Counters, checkpoint and clock fence agree with the retained records `all`. */
  ghost predicate Counted(f: Framing, l: Limits, s: State, all: seq<Record>) {
    && CheckpointFits(s, all) && FirstSequence(s) > 0
    && Chained(f, all, FirstSequence(s), 0)
    && s.stats.bytes == |EncodeAll(f, all)| && s.stats.bytes <= l.maxBytes
    && s.stats.records == |all| && s.stats.records <= l.maxRecords
    && s.stats.lastSequence == FirstSequence(s) + |all| - 1
    && s.checkpointFile == s.stats.checkpoint
    && LastTime(all, 0) <= s.lastRecordedAt
  }

  /** Everything but the retention cursor. */
  ghost predicate Core(f: Framing, l: Limits, s: State, logs: seq<seq<Record>>) {
    && |s.files| == |s.segments| == |logs| > 0
    && LimitsValid(l)
    && CheckpointFits(s, Flat(logs)) && Counted(f, l, s, Flat(logs))
    && Placed(f, s.files, s.segments, logs, FirstSequence(s))
    && OnlyLastEmpty(logs)
  }

  /** The retention cursor: set while something is pending, and exact while the segment times are. */
  ghost predicate CursorFits(cursor: Option<nat>, pending: seq<Record>, dated: bool) {
    (cursor.Some? <==> pending != []) && (dated ==> cursor == OldestOf(pending))
  }

  ghost predicate Inv(f: Framing, l: Limits, s: State, logs: seq<seq<Record>>) {
    Core(f, l, s, logs) && CursorFits(s.oldestPending, Pending(s, Flat(logs)), Dated(s.segments, logs))
  }

  /** What the operations need to know of a log without opening the definition. */
  lemma CoreFacts(f: Framing, l: Limits, s: State, logs: seq<seq<Record>>)
    requires Core(f, l, s, logs)
    ensures FirstSequence(s) > 0
    ensures s.checkpointFile == s.stats.checkpoint <= s.stats.lastSequence == FirstSequence(s) + |Flat(logs)| - 1
    ensures s.segments[|logs| - 1].bytes > 0 ==> logs[|logs| - 1] != []
    ensures forall i :: 0 <= i < |logs| - 1 ==> s.segments[i].records > 0
  {
  }

  lemma CursorIrrelevant(f: Framing, l: Limits, s: State, logs: seq<seq<Record>>, cursor: Option<nat>)
    requires Core(f, l, s, logs)
    ensures Core(f, l, s.(oldestPending := cursor), logs)
    ensures Pending(s.(oldestPending := cursor), Flat(logs)) == Pending(s, Flat(logs))
  {
  }

  // ----- rotation -----

  function Rotated(s: State): State
    requires s.segments != []
  {
    var start := s.stats.lastSequence + 1;
    s.(files := s.files + [SegmentFile(start, [])],
       segments := s.segments + [Segment(start, start - 1, 0, 0, 0, 0)])
  }

  lemma PlacedSnoc(f: Framing, files: seq<SegmentFile>, segments: seq<Segment>, logs: seq<seq<Record>>,
                   first: nat, log: seq<Record>, g: Segment)
    requires first > 0 && Placed(f, files, segments, logs, first)
    requires Summary(f, g, first + |Flat(logs)|, log)
    ensures Placed(f, files + [SegmentFile(first + |Flat(logs)|, EncodeAll(f, log))], segments + [g],
                   logs + [log], first)
  {
    var grown := logs + [log];
    assert grown[..|logs|] == logs;
    forall i | 0 <= i < |logs|
      ensures StartOf(grown, first, i) == StartOf(logs, first, i)
    {
      assert grown[..i] == logs[..i];
    }
  }

  lemma RotateKeepsPlaced(f: Framing, s: State, logs: seq<seq<Record>>, first: nat)
    requires first > 0 && Placed(f, s.files, s.segments, logs, first) && logs != []
    requires s.stats.lastSequence == first + |Flat(logs)| - 1
    ensures Placed(f, Rotated(s).files, Rotated(s).segments, logs + [[]], first)
  {
    var start := s.stats.lastSequence + 1;
    PlacedSnoc(f, s.files, s.segments, logs, first, [], Segment(start, start - 1, 0, 0, 0, 0));
  }

  lemma RotateKeepsCounted(f: Framing, l: Limits, s: State, all: seq<Record>)
    requires s.segments != [] && Counted(f, l, s, all)
    ensures Counted(f, l, Rotated(s), all) && CheckpointFits(Rotated(s), all) && Pending(Rotated(s), all) == Pending(s, all)
    ensures FirstSequence(Rotated(s)) == FirstSequence(s)
  {
  }

  lemma FlatRotated(logs: seq<seq<Record>>)
    ensures Flat(logs + [[]]) == Flat(logs)
  {
    FlatSnoc(logs, []);
    assert Flat(logs) + [] == Flat(logs);
  }

  lemma RotateKeepsOrder(logs: seq<seq<Record>>)
    requires OnlyLastEmpty(logs) && logs != [] && logs[|logs| - 1] != []
    ensures OnlyLastEmpty(logs + [[]])
  {
  }

  lemma RotateKeepsCore(f: Framing, l: Limits, s: State, logs: seq<seq<Record>>)
    requires Core(f, l, s, logs) && logs[|logs| - 1] != []
    ensures Core(f, l, Rotated(s), logs + [[]])
    ensures Flat(logs + [[]]) == Flat(logs) && Pending(Rotated(s), Flat(logs)) == Pending(s, Flat(logs))
  {
    RotateKeepsOrder(logs);
    hide Flat, Placed, Counted, Pending, OnlyLastEmpty, CheckpointFits;
    CoreFacts(f, l, s, logs);
    FlatRotated(logs);
    RotateKeepsPlaced(f, s, logs, FirstSequence(s));
    RotateKeepsCounted(f, l, s, Flat(logs));
  }

  lemma RotateKeeps(f: Framing, l: Limits, s: State, logs: seq<seq<Record>>)
    requires Inv(f, l, s, logs) && logs[|logs| - 1] != []
    ensures Inv(f, l, Rotated(s), logs + [[]])
    ensures Flat(logs + [[]]) == Flat(logs) && Pending(Rotated(s), Flat(logs)) == Pending(s, Flat(logs))
    ensures Unmarked(Rotated(s).segments) && (Dated(Rotated(s).segments, logs + [[]]) <==> Dated(s.segments, logs))
  {
    RotateKeepsTimes(s, logs);
    hide Flat, Placed, Counted, OnlyLastEmpty, Pending, Dated;
    RotateKeepsCore(f, l, s, logs);
  }

  lemma RotateKeepsTimes(s: State, logs: seq<seq<Record>>)
    requires |s.segments| == |logs| > 0
    ensures Unmarked(Rotated(s).segments) && (Dated(Rotated(s).segments, logs + [[]]) <==> Dated(s.segments, logs))
  {
    var grown, segments := logs + [[]], Rotated(s).segments;
    forall i | 0 <= i < |logs|
      ensures grown[i] == logs[i] && segments[i] == s.segments[i]
    {
    }
  }

  // ----- appending to the last segment -----

  /** The effect of one successful append on files, summary and counters. */
  function Pushed(f: Framing, s: State, r: Record): State
    requires |s.files| == |s.segments| > 0
  {
    var n := |s.files| - 1;
    var size := HEADER_BYTES + |r.payload|;
    var seg := s.segments[n];
    State(
      s.files[n := SegmentFile(s.files[n].start, s.files[n].content + f.encode(r))],
      s.checkpointFile,
      s.segments[n := Segment(seg.start, r.sequence, seg.bytes + size, seg.records + 1,
                              if seg.firstAt == 0 then r.recordedAt else seg.firstAt, r.recordedAt)],
      Stats(s.stats.bytes + size, s.stats.records + 1, r.sequence, s.stats.checkpoint),
      if s.oldestPending.None? then Some(r.recordedAt) else s.oldestPending,
      r.recordedAt)
  }

  function Extended(logs: seq<seq<Record>>, r: Record): seq<seq<Record>>
    requires logs != []
  {
    logs[..|logs| - 1] + [logs[|logs| - 1] + [r]]
  }

  lemma FlatExtended(logs: seq<seq<Record>>, r: Record)
    requires logs != []
    ensures Flat(Extended(logs, r)) == Flat(logs) + [r]
  {
    var n := |logs| - 1;
    FlatSnoc(logs[..n], logs[n] + [r]);
    FlatSnoc(logs[..n], logs[n]);
    assert logs[..n] + [logs[n]] == logs;
  }

  lemma ExtendedStarts(logs: seq<seq<Record>>, r: Record, first: nat, i: nat)
    requires logs != [] && i < |logs|
    ensures StartOf(Extended(logs, r), first, i) == StartOf(logs, first, i)
  {
    assert Extended(logs, r)[..i] == logs[..i];
  }

  lemma PushKeepsPlaced(f: Framing, l: Limits, s: State, logs: seq<seq<Record>>, r: Record)
    requires Lawful(f) && Core(f, l, s, logs)
    requires f.storable(r) && r.sequence == s.stats.lastSequence + 1
    ensures Placed(f, Pushed(f, s, r).files, Pushed(f, s, r).segments, Extended(logs, r), FirstSequence(s))
  {
    var n := |logs| - 1;
    var first := FirstSequence(s);
    var grown := Extended(logs, r);
    forall i | 0 <= i < |logs|
      ensures StartOf(grown, first, i) == StartOf(logs, first, i)
    {
      ExtendedStarts(logs, r, first, i);
    }
    assert Law(f, Size(r));
    EncodeAllSnoc(f, logs[n], r);
    FlatSnoc(logs[..n], logs[n]);
    assert logs[..n] + [logs[n]] == logs;
    assert Summary(f, Pushed(f, s, r).segments[n], StartOf(logs, first, n), grown[n]);
  }

  /** An append keeps every segment time exact unless the segment it lands in is empty and already marked. */
  lemma PushKeepsTimes(f: Framing, l: Limits, s: State, logs: seq<seq<Record>>, r: Record)
    requires Core(f, l, s, logs) && r.recordedAt > 0
    ensures Dated(Pushed(f, s, r).segments, Extended(logs, r)) ==> Dated(s.segments, logs)
    ensures Dated(s.segments, logs) && Unmarked(s.segments) ==> Dated(Pushed(f, s, r).segments, Extended(logs, r))
    ensures Unmarked(Pushed(f, s, r).segments)
  {
    var n, grown, segments := |logs| - 1, Extended(logs, r), Pushed(f, s, r).segments;
    assert Summary(f, s.segments[n], StartOf(logs, FirstSequence(s), n), logs[n]);
    forall i | 0 <= i < n
      ensures grown[i] == logs[i] && segments[i] == s.segments[i]
    {
    }
    assert grown[n] == logs[n] + [r] && (logs[n] != [] ==> grown[n][0] == logs[n][0]);
  }

  lemma PushKeepsCounted(f: Framing, l: Limits, s: State, all: seq<Record>, r: Record)
    requires Lawful(f) && |s.files| == |s.segments| && Counted(f, l, s, all)
    requires f.storable(r) && r.sequence == s.stats.lastSequence + 1 && s.lastRecordedAt <= r.recordedAt
    requires s.stats.bytes + HEADER_BYTES + |r.payload| <= l.maxBytes && s.stats.records + 1 <= l.maxRecords
    ensures Counted(f, l, Pushed(f, s, r), all + [r])
    ensures Pending(Pushed(f, s, r), all + [r]) == Pending(s, all) + [r]
  {
    assert Law(f, Size(r));
    EncodeAllSnoc(f, all, r);
    var first := FirstSequence(s);
    ChainedConcat(f, all, [r], first, 0);
    assert Chained(f, [r], first + |all|, LastTime(all, 0));
    assert FirstSequence(Pushed(f, s, r)) == first;
  }

  lemma PushKeeps(f: Framing, l: Limits, s: State, logs: seq<seq<Record>>, r: Record)
    requires Lawful(f) && Inv(f, l, s, logs)
    requires f.storable(r) && r.sequence == s.stats.lastSequence + 1 && s.lastRecordedAt <= r.recordedAt
    requires s.stats.bytes + HEADER_BYTES + |r.payload| <= l.maxBytes && s.stats.records + 1 <= l.maxRecords
    ensures Inv(f, l, Pushed(f, s, r), Extended(logs, r))
    ensures Flat(Extended(logs, r)) == Flat(logs) + [r]
    ensures Pending(Pushed(f, s, r), Flat(logs) + [r]) == Pending(s, Flat(logs)) + [r]
    ensures Unmarked(Pushed(f, s, r).segments)
    ensures Dated(s.segments, logs) && Unmarked(s.segments) ==> Dated(Pushed(f, s, r).segments, Extended(logs, r))
  {
    var all := Flat(logs);
    PushKeepsPlaced(f, l, s, logs, r);
    FlatExtended(logs, r);
    PushKeepsCounted(f, l, s, all, r);
    assert Law(f, Size(r));
    PushKeepsTimes(f, l, s, logs, r);
    assert FirstSequence(Pushed(f, s, r)) == FirstSequence(s);
  }

  // ----- dropping the first segment -----

  function Dropped(s: State): State
    requires s.files != [] && s.segments != []
    requires s.segments[0].bytes <= s.stats.bytes && s.segments[0].records <= s.stats.records
  {
    var seg := s.segments[0];
    s.(files := s.files[1..], segments := s.segments[1..],
       stats := s.stats.(bytes := s.stats.bytes - seg.bytes, records := s.stats.records - seg.records))
  }

  lemma DropStarts(logs: seq<seq<Record>>, first: nat, i: nat)
    requires i < |logs|
    ensures StartOf(logs[1..], first + |logs[0]|, i) == StartOf(logs, first, i + 1)
  {
    assert logs[..i + 1][1..] == logs[1..][..i];
    assert logs[..i + 1][0] == logs[0];
  }

  lemma DropKeepsPlaced(f: Framing, s: State, logs: seq<seq<Record>>, first: nat)
    requires first > 0 && |logs| > 1 && Placed(f, s.files, s.segments, logs, first)
    ensures Placed(f, s.files[1..], s.segments[1..], logs[1..], first + |logs[0]|)
    ensures s.files[1].start == first + |logs[0]|
    ensures Summary(f, s.segments[0], first, logs[0])
  {
    forall i | 0 <= i < |logs| - 1
      ensures s.files[1..][i] == SegmentFile(StartOf(logs[1..], first + |logs[0]|, i), EncodeAll(f, logs[1..][i]))
      ensures Summary(f, s.segments[1..][i], StartOf(logs[1..], first + |logs[0]|, i), logs[1..][i])
    {
      DropStarts(logs, first, i);
    }
    assert logs[1..][..0] == [] && logs[..0] == [];
    DropStarts(logs, first, 0);
    assert s.files[0].start == StartOf(logs, first, 0);
  }

  lemma DropKeepsCounted(f: Framing, l: Limits, s: State, log: seq<Record>, rest: seq<Record>)
    requires |s.files| > 1 && |s.segments| > 0 && Counted(f, l, s, log + rest)
    requires Summary(f, s.segments[0], FirstSequence(s), log) && s.files[1].start == FirstSequence(s) + |log|
    requires s.segments[0].end <= s.stats.checkpoint
    ensures s.segments[0].bytes <= s.stats.bytes && s.segments[0].records <= s.stats.records
    ensures Counted(f, l, Dropped(s), rest)
    ensures Pending(Dropped(s), rest) == Pending(s, log + rest)
  {
    hide EncodeAll, Chained;
    var first := FirstSequence(s);
    EncodeAllAppend(f, log, rest);
    ChainedConcat(f, log, rest, first, 0);
    ChainedWeaken(f, rest, first + |log|, LastTime(log, 0), 0);
    DropConcat(log, rest, s.stats.checkpoint + 1 - first);
  }

  lemma DropKeepsTimes(segments: seq<Segment>, logs: seq<seq<Record>>)
    requires |segments| == |logs| > 1
    ensures Dated(segments, logs) ==> Dated(segments[1..], logs[1..])
    ensures Unmarked(segments[1..]) <==> Unmarked(segments)
  {
    forall i | 0 <= i < |logs| - 1
      ensures segments[1..][i] == segments[i + 1] && logs[1..][i] == logs[i + 1]
    {
    }
  }

  /** A segment wholly at or below the checkpoint holds nothing that is pending. */
  lemma DropKeepsCore(f: Framing, l: Limits, s: State, logs: seq<seq<Record>>)
    requires Core(f, l, s, logs) && |logs| > 1
    requires s.segments[0].end <= s.stats.checkpoint
    ensures s.segments[0].bytes <= s.stats.bytes && s.segments[0].records <= s.stats.records
    ensures Core(f, l, Dropped(s), logs[1..])
    ensures Pending(Dropped(s), Flat(logs[1..])) == Pending(s, Flat(logs))
    ensures FirstSequence(Dropped(s)) == FirstSequence(s) + |logs[0]| > FirstSequence(s)
    ensures Dated(s.segments, logs) ==> Dated(Dropped(s).segments, logs[1..])
    ensures Unmarked(Dropped(s).segments) <==> Unmarked(s.segments)
  {
    assert OnlyLastEmpty(logs[1..]) && logs[0] != [];
    hide Placed, Counted, OnlyLastEmpty, Pending, CheckpointFits, Dated, Unmarked;
    DropKeepsTimes(s.segments, logs);
    DropKeepsPlaced(f, s, logs, FirstSequence(s));
    DropKeepsCounted(f, l, s, logs[0], Flat(logs[1..]));
  }

  // ----- advancing the checkpoint -----

  function Advanced(s: State, sequence: nat): State {
    s.(checkpointFile := sequence, stats := s.stats.(checkpoint := sequence))
  }

  lemma AdvanceKeepsCore(f: Framing, l: Limits, s: State, logs: seq<seq<Record>>, sequence: nat)
    requires Core(f, l, s, logs) && s.stats.checkpoint <= sequence <= s.stats.lastSequence
    ensures Core(f, l, Advanced(s, sequence), logs)
    ensures var was, gone := Pending(s, Flat(logs)), sequence - s.stats.checkpoint;
      && gone <= |was| && Pending(Advanced(s, sequence), Flat(logs)) == was[gone..]
  {
    var all := Flat(logs);
    assert Counted(f, l, Advanced(s, sequence), all);
    assert Pending(Advanced(s, sequence), all) == Pending(s, all)[sequence - s.stats.checkpoint..];
  }
}
