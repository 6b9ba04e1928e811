/**
 The time of a record that was never stored.  The recovery scan takes a header's
 time over before it finds the payload short, so a torn record with a whole
 header leaves its time behind: in the clock fence when its segment holds other
 records, and otherwise as the first time of an empty segment, where the next
 record will not replace it.  The lemmas say exactly when that happens and when
 the retention cursor then answers with it.
 */
module WalTorn {
  import opened Prelude
  import opened WalScan
  import opened WalState
  import opened WalRecovery
  import opened WalRead
  import opened Wal

  // ----- which directories leave a time behind -----

  lemma TornHeaderLast(f: Framing, file: SegmentFile, expected: nat, last: nat)
    requires Lawful(f) && file.start == expected && Kept(f, file, true).Opened?
    ensures var kept := Kept(f, file, true);
      var n := |EncodeAll(f, kept.logs[0])|;
      && n <= |file.content| && file.content[..n] == EncodeAll(f, kept.logs[0])
      && (kept.seen > 0 <==> n + HEADER_BYTES <= |file.content|)
  {
    ScanSound(f, file.content, file.start, 0);
    var s := Scan(f, file.content, file.start, 0);
    var n := |EncodeAll(f, s.records)|;
    hide Scan, EncodeAll;
    if s.Tail? {
      assert Law(f, Back(file.content[n..], file.start + |s.records|, LastTime(s.records, 0)));
    } else {
      assert file.content[..n] == file.content;
    }
  }

  ghost predicate ShowsTime(f: Framing, o: Opened, content: bytes)
    requires o.Opened? && o.logs != []
  {
    var whole := EncodeAll(f, o.logs[|o.logs| - 1]);
    whole <= content && (o.seen > 0 <==> |whole| + HEADER_BYTES <= |content|)
  }

  /** Of several files the first adds its records and nothing else. */
  lemma FirstLog(f: Framing, files: seq<SegmentFile>, expected: nat, last: nat) returns (log: seq<Record>)
    requires |files| > 1 && OpenSegments(f, files, expected, last).Opened?
    ensures var rest := OpenSegments(f, files[1..], expected + |log|, LastTime(log, last));
      && rest.Opened? && rest.logs != [] && OpenSegments(f, files, expected, last) == Opened([log] + rest.logs, rest.seen)
  {
    var kept := Kept(f, files[0], false);
    OpenStep(f, files, expected, last, kept);
    log := kept.logs[0];
    WalkSize(f, files[1..], expected + |log|, LastTime(log, last));
    hide OpenSegments, Kept;
  }

  lemma TornHeaderOne(f: Framing, files: seq<SegmentFile>, expected: nat, last: nat)
    requires Lawful(f) && |files| == 1 && OpenSegments(f, files, expected, last).Opened?
    ensures var o := OpenSegments(f, files, expected, last); |o.logs| == 1 && ShowsTime(f, o, files[0].content)
  {
    var kept := Kept(f, files[0], true);
    OpenStep(f, files, expected, last, kept);
    TornHeaderLast(f, files[0], expected, last);
    WalkSize(f, files[1..], expected + |kept.logs[0]|, LastTime(kept.logs[0], last));
    hide Lawful, OpenSegments, Kept, EncodeAll;
  }

  /** A time is left behind exactly when at least a header's worth of bytes follows the last whole record. */
  lemma {:induction false} TornHeaderExactly(f: Framing, files: seq<SegmentFile>, expected: nat, last: nat)
    requires Lawful(f) && files != [] && OpenSegments(f, files, expected, last).Opened?
    ensures var o, content := OpenSegments(f, files, expected, last), files[|files| - 1].content;
      && |o.logs| == |files|
      && EncodeAll(f, o.logs[|files| - 1]) <= content
      && (o.seen > 0 <==> |EncodeAll(f, o.logs[|files| - 1])| + HEADER_BYTES <= |content|)
    decreases |files|
  {
    if |files| == 1 {
      TornHeaderOne(f, files, expected, last);
    } else {
      var log := FirstLog(f, files, expected, last);
      hide OpenSegments, EncodeAll, Lawful, LastTime;
      TornHeaderExactly(f, files[1..], expected + |log|, LastTime(log, last));
      assert files[1..][|files| - 2] == files[|files| - 1];
    }
  }

  /** The clock fence is the last stored time exactly when no torn record in a segment with records showed a later one. */
  lemma FenceExactly(logs: seq<seq<Record>>, seen: nat)
    requires logs != []
    ensures var log := logs[|logs| - 1];
      Fence(logs, seen) == LastTime(Flat(logs), 0) <==> seen == 0 || log == [] || seen == LastTime(log, 0)
  {
    var n := |logs| - 1;
    FlatSnoc(logs[..n], logs[n]);
    assert logs[..n] + [logs[n]] == logs;
  }

  // ----- when the cursor answers with a time that is no record's -----

  /** An append rotates first when the current segment would grow too long. */
  predicate Rolls(l: Limits, s: State, r: Record)
    requires s.segments != []
  {
    var current := s.segments[|s.segments| - 1].bytes;
    current > 0 && current + HEADER_BYTES + |r.payload| > l.segmentBytes
  }

  function Appended(f: Framing, l: Limits, s: State, r: Record): State
    requires |s.files| == |s.segments| > 0
  {
    Pushed(f, if Rolls(l, s, r) then Rotated(s) else s, r)
  }

  function AppendedLogs(l: Limits, s: State, logs: seq<seq<Record>>, r: Record): seq<seq<Record>>
    requires logs != [] && s.segments != []
  {
    Extended(if Rolls(l, s, r) then logs + [[]] else logs, r)
  }

  /** `r` passes the checks of an append to `s`. */
  predicate Appendable(f: Framing, l: Limits, s: State, r: Record) {
    && f.storable(r) && r.sequence == s.stats.lastSequence + 1 && s.lastRecordedAt <= r.recordedAt
    && s.stats.bytes + HEADER_BYTES + |r.payload| <= l.maxBytes && s.stats.records + 1 <= l.maxRecords
  }

  lemma AppendedKeeps(f: Framing, l: Limits, s: State, logs: seq<seq<Record>>, r: Record)
    requires Lawful(f) && Inv(f, l, s, logs) && Appendable(f, l, s, r)
    ensures Inv(f, l, Appended(f, l, s, r), AppendedLogs(l, s, logs, r))
    ensures Flat(AppendedLogs(l, s, logs, r)) == Flat(logs) + [r]
    ensures Pending(Appended(f, l, s, r), Flat(logs) + [r]) == Pending(s, Flat(logs)) + [r]
  {
    hide Lawful, Flat, Counted, Placed, OnlyLastEmpty, LimitsValid, Dated, Pending, CheckpointFits;
    CoreFacts(f, l, s, logs);
    if Rolls(l, s, r) {
      RotateKeeps(f, l, s, logs);
      PushKeeps(f, l, Rotated(s), logs + [[]], r);
    } else {
      PushKeeps(f, l, s, logs, r);
    }
  }

  lemma {:induction false} NothingFlat(logs: seq<seq<Record>>, i: nat)
    requires Flat(logs) == [] && i < |logs|
    ensures logs[i] == []
  {
    if i > 0 {
      NothingFlat(logs[1..], i - 1);
    }
  }

  /** When everything before the last segment is checkpointed, that segment answers. */
  lemma {:induction false} LastAnswers(segments: seq<Segment>, dues: seq<seq<Record>>, checkpoint: nat, i: nat)
    requires |segments| == |dues| && i < |segments|
    requires forall k :: i <= k < |segments| - 1 ==> segments[k].records == 0 || segments[k].end <= checkpoint
    requires var g := segments[|segments| - 1]; g.records > 0 && checkpoint < g.start && checkpoint < g.end
    ensures Cursor(segments[i..], dues[i..], checkpoint) == Some(segments[|segments| - 1].firstAt)
    decreases |segments| - i
  {
    CursorFrom(segments, dues, i, checkpoint);
    if i + 1 < |segments| {
      LastAnswers(segments, dues, checkpoint, i + 1);
    }
  }

  /** An append that lands in an empty marked segment leaves the mark as that segment's first time. */
  lemma MarkStays(f: Framing, l: Limits, s: State, logs: seq<seq<Record>>, r: Record)
    requires Core(f, l, s, logs) && !Unmarked(s.segments) && r.sequence == s.stats.lastSequence + 1
    ensures var n := |logs| - 1;
      && logs[n] == [] && !Rolls(l, s, r) && AppendedLogs(l, s, logs, r)[n] == [r]
      && Appended(f, l, s, r).segments[n] ==
         Segment(r.sequence, r.sequence, HEADER_BYTES + |r.payload|, 1, s.segments[n].firstAt, r.recordedAt)
  {
    var n := |logs| - 1;
    assert Summary(f, s.segments[n], StartOf(logs, FirstSequence(s), n), logs[n]);
    FlatSnoc(logs[..n], logs[n]);
    assert logs[..n] + [logs[n]] == logs && [] + [r] == [r] && Flat(logs[..n]) + [] == Flat(logs[..n]);
  }

  /** The state after one append and a checkpoint of everything before it. */
  lemma OneDue(f: Framing, l: Limits, s: State, logs: seq<seq<Record>>, r: Record) returns (t: State, dues: seq<seq<Record>>)
    requires Lawful(f) && Inv(f, l, s, logs) && Appendable(f, l, s, r)
    ensures t == Advanced(Appended(f, l, s, r), s.stats.lastSequence)
    ensures var grown := AppendedLogs(l, s, logs, r);
      && Core(f, l, t, grown) && AllDue(f, t, dues) && WholeDue(t, grown, dues)
      && Flat(dues) == Pending(t, Flat(grown)) == [r]
      && CursorOf(t.segments, grown, t.stats.checkpoint) == Cursor(t.segments, dues, t.stats.checkpoint)
  {
    hide Lawful, Flat, Counted, Placed, OnlyLastEmpty, LimitsValid, Dated, CursorOf, Cursor, AllDue, WholeDue;
    var pushed, grown := Appended(f, l, s, r), AppendedLogs(l, s, logs, r);
    AppendedKeeps(f, l, s, logs, r);
    CoreFacts(f, l, s, logs);
    AdvanceKeepsCore(f, l, pushed, grown, s.stats.lastSequence);
    t := Advanced(pushed, s.stats.lastSequence);
    dues := CoreDue(f, l, t, grown);
  }

  lemma AppendedDated(f: Framing, l: Limits, s: State, logs: seq<seq<Record>>, r: Record)
    requires Lawful(f) && Inv(f, l, s, logs) && Dated(s.segments, logs) && Appendable(f, l, s, r)
    requires Unmarked(s.segments)
    ensures Dated(Appended(f, l, s, r).segments, AppendedLogs(l, s, logs, r))
  {
    hide Lawful, Flat, Counted, Placed, OnlyLastEmpty, LimitsValid, Dated, Pending, CheckpointFits;
    CoreFacts(f, l, s, logs);
    if Rolls(l, s, r) {
      RotateKeeps(f, l, s, logs);
      PushKeeps(f, l, Rotated(s), logs + [[]], r);
    } else {
      PushKeeps(f, l, s, logs, r);
    }
  }

  /** If the only record due is in the last segment, no other segment has any. */
  lemma OthersDone(f: Framing, t: State, grown: seq<seq<Record>>, dues: seq<seq<Record>>, r: Record)
    requires AllDue(f, t, dues) && WholeDue(t, grown, dues) && Flat(dues) == [r] && grown != []
    requires var n := |grown| - 1; grown[n] == [r] && t.stats.checkpoint < t.segments[n].start
    ensures forall k :: 0 <= k < |grown| - 1 ==> t.segments[k].records == 0 || t.segments[k].end <= t.stats.checkpoint
  {
    var n := |grown| - 1;
    FlatSnoc(dues[..n], dues[n]);
    assert dues[..n] + [dues[n]] == dues && Flat(dues[..n]) == [];
    forall k | 0 <= k < n
      ensures t.segments[k].records == 0 || t.segments[k].end <= t.stats.checkpoint
    {
      NothingFlat(dues[..n], k);
      assert DueAt(f, t, k, dues[k]);
    }
  }

  /** A mark that stays is what the cursor answers. */
  lemma MarkAnswers(f: Framing, l: Limits, s: State, logs: seq<seq<Record>>, r: Record)
    requires Lawful(f) && Inv(f, l, s, logs) && !Unmarked(s.segments) && Appendable(f, l, s, r)
    ensures CursorOf(Appended(f, l, s, r).segments, AppendedLogs(l, s, logs, r), s.stats.lastSequence)
      == Some(s.segments[|s.segments| - 1].firstAt)
  {
    hide Lawful, Flat, Counted, Placed, OnlyLastEmpty, LimitsValid, Dated, CursorOf, Cursor, AllDue;
    var t, dues := OneDue(f, l, s, logs, r);
    assert t.segments[0..] == t.segments && dues[0..] == dues;
    MarkStays(f, l, s, logs, r);
    OthersDone(f, t, AppendedLogs(l, s, logs, r), dues, r);
    LastAnswers(t.segments, dues, t.stats.checkpoint, 0);
  }

  /** Without a mark the cursor answers with the record's own time. */
  lemma UnmarkedAnswers(f: Framing, l: Limits, s: State, logs: seq<seq<Record>>, r: Record)
    requires Lawful(f) && Inv(f, l, s, logs) && Dated(s.segments, logs) && Unmarked(s.segments) && Appendable(f, l, s, r)
    ensures CursorOf(Appended(f, l, s, r).segments, AppendedLogs(l, s, logs, r), s.stats.lastSequence)
      == Some(r.recordedAt)
  {
    hide Lawful, Flat, Counted, Placed, OnlyLastEmpty, LimitsValid, Dated, CursorOf, Cursor, AllDue, WholeDue, Unmarked;
    var t, dues := OneDue(f, l, s, logs, r);
    assert t.segments[0..] == t.segments && dues[0..] == dues;
    AppendedDated(f, l, s, logs, r);
    CursorSuits(f, t, AppendedLogs(l, s, logs, r), dues, 0);
  }

  /**
   After an append and a checkpoint of everything before it, the cursor is the
   appended record's time exactly when the segment the record went to was not
   empty with another time on it.
   */
  lemma NextCursorExactly(f: Framing, l: Limits, s: State, logs: seq<seq<Record>>, r: Record)
    requires Lawful(f) && Inv(f, l, s, logs) && Dated(s.segments, logs) && Appendable(f, l, s, r)
    ensures var grown := AppendedLogs(l, s, logs, r);
      CursorOf(Appended(f, l, s, r).segments, grown, s.stats.lastSequence) == Some(r.recordedAt) <==>
      Unmarked(s.segments) || s.segments[|s.segments| - 1].firstAt == r.recordedAt
  {
    if Unmarked(s.segments) {
      UnmarkedAnswers(f, l, s, logs, r);
    } else {
      MarkAnswers(f, l, s, logs, r);
    }
  }

  // ----- the shortest run in which a fresh record counts as expired -----

  /** Append `r1`, start a new segment, and lose `r2` to a crash after `k` of its bytes. */
  function TornSecond(f: Framing, r1: Record, r2: Record, k: nat): seq<SegmentFile>
    requires k <= |f.encode(r2)|
  {
    TornFiles(Rotated(Pushed(f, FRESH, r1)).files, f.encode(r2)[..k])
  }

  lemma TornSecondOpens(f: Framing, l: Limits, r1: Record, r2: Record, k: nat)
    requires Lawful(f) && LimitsValid(l) && Appendable(f, l, FRESH, r1)
    requires f.storable(r2) && r2.sequence == 2 && r1.recordedAt <= r2.recordedAt && HEADER_BYTES <= k < |f.encode(r2)|
    ensures OpenSegments(f, TornSecond(f, r1, r2, k), 1, 0) == Opened([[r1], []], r2.recordedAt)
  {
    hide Counted, Placed, OnlyLastEmpty, Flat, Lawful, Pending, CheckpointFits, Dated;
    FreshCore(f, l);
    PushKeeps(f, l, FRESH, [[]], r1);
    assert [] + [r1] == [r1] && Extended([[]], r1) == [[r1]];
    RotateKeeps(f, l, Pushed(f, FRESH, r1), [[r1]]);
    assert [[r1]] + [[]] == [[r1], []];
    CrashDuringAppend(f, l, Rotated(Pushed(f, FRESH, r1)), [[r1], []], r2, k);
  }

  lemma OneRecord(f: Framing, l: Limits, s: State, r1: Record)
    requires Core(f, l, s, [[r1], []])
    ensures Flat([[r1], []]) == [r1] && s.stats.lastSequence == r1.sequence
  {
    var logs := [[r1], []];
    FlatOne([]);
    assert logs[1..] == [[]] && [r1] + [] == [r1];
  }

  /** Only the empty last segment carries the lost record's time. */
  lemma LostTimeMarks(f: Framing, s: State, r1: Record, seen: nat)
    requires Restored(f, s, [[r1], []], seen) && seen > 0
    ensures |s.segments| == 2 && !Unmarked(s.segments) && s.segments[1].firstAt == seen
  {
    var logs := [[r1], []];
    assert s.segments[1] == SegmentOf(f, StartOf(logs, 1, 1), logs[1], seen);
  }

  /**
   Opening that directory, appending `r3` and acknowledging `r1` leaves `r3` as
   the only pending record and the lost `r2`'s time as the retention cursor, so
   the log declares itself expired while `r3` is still young.
   */
  lemma FreshRecordExpires(f: Framing, l: Limits, s: State, r1: Record, r2: Record, r3: Record, now: nat)
    requires Lawful(f) && Inv(f, l, s, [[r1], []]) && Restored(f, s, [[r1], []], r2.recordedAt)
    requires r2.recordedAt > 0 && Appendable(f, l, s, r3)
    requires r3.recordedAt <= now <= r3.recordedAt + l.maxAgeSeconds * 1000
    requires r2.recordedAt + l.maxAgeSeconds * 1000 < now
    ensures var t := Advanced(Appended(f, l, s, r3), r1.sequence);
      && Core(f, l, t, [[r1], [r3]]) && Pending(t, Flat([[r1], [r3]])) == [r3]
      && CursorOf(t.segments, [[r1], [r3]], r1.sequence) == Some(r2.recordedAt)
      && RetentionError(t.(oldestPending := Some(r2.recordedAt)), l, now) == Some(RetentionExpired)
      && RetentionError(t.(oldestPending := Some(r3.recordedAt)), l, now) == None
  {
    var logs := [[r1], []];
    hide AllDue, WholeDue, Cursor, CursorOf, Placed, Lawful, Counted, Summarised, Flat, OnlyLastEmpty, Dated, Restored;
    OneRecord(f, l, s, r1);
    LostTimeMarks(f, s, r1, r2.recordedAt);
    MarkAnswers(f, l, s, logs, r3);
    MarkStays(f, l, s, logs, r3);
    assert AppendedLogs(l, s, logs, r3) == [[r1], [r3]];
    var t, dues := OneDue(f, l, s, logs, r3);
    AppendedKeeps(f, l, s, logs, r3);
  }
}
