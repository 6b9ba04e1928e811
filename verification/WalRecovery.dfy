/**
 Opening a log directory.  `OpenSegments` is the segment walk as a function; the
 lemmas say which directories it accepts, in particular every directory a crash
 can leave behind.  The walk insists that the first segment starts at sequence 1,
 so a directory from which compaction has removed a segment is refused: that
 condition is exact (`ReopenExactly`).
 */
module WalRecovery {
  import opened Prelude
  import opened WalScan
  import opened WalState

  /** The records of each file; `seen` is the time shown by a torn record at the very end, 0 if none. */
  datatype Opened = Opened(logs: seq<seq<Record>>, seen: nat) | Refused(error: WalError)

  function Under(log: seq<Record>, seen: nat, o: Opened): Opened {
    match o
    case Opened(logs, later) => Opened([log] + logs, if logs == [] then seen else later)
    case Refused(e) => Refused(e)
  }

  /** The records of the file that a successful scan keeps; a torn tail is kept out of the last file only. */
  ghost function Kept(f: Framing, file: SegmentFile, finalSegment: bool): Opened {
    match Scan(f, file.content, file.start, 0)
    case Complete(rs) => Opened([rs], 0)
    case Tail(rs, seen) => if finalSegment then Opened([rs], seen) else Refused(Corrupt)
    case Broken(e) => Refused(e)
  }

  ghost function OpenSegments(f: Framing, files: seq<SegmentFile>, expected: nat, last: nat): Opened {
    if files == [] then Opened([], 0)
    else if files[0].start != expected then Refused(Corrupt)
    else
      var kept := Kept(f, files[0], |files| == 1);
      if kept.Refused? then kept
      else
        var log := kept.logs[0];
        if log != [] && log[0].recordedAt < last then Refused(ClockUnprovable)
        else Under(log, kept.seen, OpenSegments(f, files[1..], expected + |log|, LastTime(log, last)))
  }

  /** The verdict of opening a directory, checkpoint and limits included. */
  ghost predicate OpenAccepts(f: Framing, l: Limits, files: seq<SegmentFile>, checkpoint: nat) {
    var o := OpenSegments(f, files, 1, 0);
    && LimitsValid(l) && o.Opened? && checkpoint <= |Flat(o.logs)|
    && |EncodeAll(f, Flat(o.logs))| <= l.maxBytes && |Flat(o.logs)| <= l.maxRecords
  }

  // ----- what opening puts in memory -----

  /** The segment after whose end the log goes on has no record, but a torn one in it has shown its time. */
  predicate MarkedByTear(logs: seq<seq<Record>>, seen: nat) {
    logs != [] && logs[|logs| - 1] == [] && seen > 0
  }

  /** Clock fence after opening: the last segment counts only if it holds a record. */
  function Fence(logs: seq<seq<Record>>, seen: nat): nat {
    if logs == [] || logs[|logs| - 1] == [] || seen == 0 then LastTime(Flat(logs), 0) else seen
  }

  /** The summaries a scan of all files leaves; only the last can have met a torn record. */
  ghost predicate Summarised(f: Framing, segments: seq<Segment>, logs: seq<seq<Record>>, seen: nat) {
    && |segments| == |logs|
    && forall i :: 0 <= i < |logs| ==>
         segments[i] == SegmentOf(f, StartOf(logs, 1, i), logs[i], if i == |logs| - 1 then seen else 0)
  }

  /** An empty directory is given its first segment. */
  function WithSegment(logs: seq<seq<Record>>): seq<seq<Record>> {
    if logs == [] then [[]] else logs
  }

  /** The state in memory is the one read from files that hold `logs` and a torn record that showed `seen`. */
  ghost predicate Restored(f: Framing, s: State, logs: seq<seq<Record>>, seen: nat) {
    Summarised(f, s.segments, logs, seen) && s.lastRecordedAt == Fence(logs, seen)
  }

  /** Opening leaves every non-empty segment dated; what a torn header marks is an empty last segment, and only that. */
  lemma SummarisedTimes(f: Framing, segments: seq<Segment>, logs: seq<seq<Record>>, seen: nat)
    requires logs != [] && Summarised(f, segments, logs, seen)
    ensures Dated(segments, logs) && (Unmarked(segments) <==> !MarkedByTear(logs, seen))
  {
    var n := |logs| - 1;
    assert segments[n] == SegmentOf(f, StartOf(logs, 1, n), logs[n], seen);
  }

  // ----- directories that hold a well-formed log, possibly with a torn tail -----

  function TornFiles(files: seq<SegmentFile>, torn: bytes): seq<SegmentFile>
    requires files != []
  {
    var n := |files| - 1;
    files[n := SegmentFile(files[n].start, files[n].content + torn)]
  }

  /** `torn` is what a crash can leave of the record `r` that follows a log ending at (`next` - 1, `last`). */
  ghost predicate TornNext(f: Framing, next: nat, last: nat, r: Record, torn: bytes) {
    torn == [] ||
    (|torn| < |f.encode(r)| && torn == f.encode(r)[..|torn|] && Chained(f, [r], next, last))
  }

  lemma KeptLast(f: Framing, start: nat, log: seq<Record>, r: Record, torn: bytes, last: nat)
    requires Lawful(f) && Chained(f, log, start, last)
    requires TornNext(f, start + |log|, LastTime(log, last), r, torn)
    ensures Kept(f, SegmentFile(start, EncodeAll(f, log) + torn), true) == Opened([log], SeenIn(r, |torn|))
  {
    ChainedWeaken(f, log, start, last, 0);
    if torn == [] {
      assert EncodeAll(f, log) + torn == EncodeAll(f, log);
      ScanEncoded(f, log, start, 0);
    } else {
      ChainedConcat(f, log, [r], start, last);
      ChainedWeaken(f, log + [r], start, last, 0);
      ScanCrashTail(f, log, r, |torn|, start, 0);
    }
  }

  lemma KeptWhole(f: Framing, start: nat, log: seq<Record>, last: nat, finalSegment: bool)
    requires Lawful(f) && Chained(f, log, start, last)
    ensures Kept(f, SegmentFile(start, EncodeAll(f, log)), finalSegment) == Opened([log], 0)
  {
    ChainedWeaken(f, log, start, last, 0);
    ScanEncoded(f, log, start, 0);
  }

  /** Files encode logs one after another, the last file followed by `torn`. */
  ghost predicate Laid(f: Framing, files: seq<SegmentFile>, logs: seq<seq<Record>>, first: nat, torn: bytes) {
    && |files| == |logs| && files != []
    && files[0].start == first
    && files[0].content == EncodeAll(f, logs[0]) + (if |files| == 1 then torn else [])
    && (|files| > 1 ==> Laid(f, files[1..], logs[1..], first + |logs[0]|, torn))
  }

  lemma OpenOne(f: Framing, files: seq<SegmentFile>, log: seq<Record>, seen: nat, first: nat, last: nat)
    requires files != [] && files[0].start == first && Chained(f, log, first, last)
    requires Kept(f, files[0], |files| == 1) == Opened([log], seen)
    ensures OpenSegments(f, files, first, last)
      == Under(log, seen, OpenSegments(f, files[1..], first + |log|, LastTime(log, last)))
  {
  }

  lemma OpenLastFile(f: Framing, file: SegmentFile, log: seq<Record>, first: nat, last: nat, r: Record, torn: bytes)
    requires Lawful(f) && Chained(f, log, first, last) && file == SegmentFile(first, EncodeAll(f, log) + torn)
    requires TornNext(f, first + |log|, LastTime(log, last), r, torn)
    ensures OpenSegments(f, [file], first, last) == Opened([log], SeenIn(r, |torn|))
  {
    KeptLast(f, first, log, r, torn, last);
    OpenOne(f, [file], log, SeenIn(r, |torn|), first, last);
    assert [file][1..] == [];
    assert [log] + [] == [log];
  }

  lemma OpenWholeFile(f: Framing, files: seq<SegmentFile>, log: seq<Record>, first: nat, last: nat)
    requires Lawful(f) && Chained(f, log, first, last)
    requires |files| > 1 && files[0].start == first && files[0].content == EncodeAll(f, log) + []
    ensures OpenSegments(f, files, first, last)
      == Under(log, 0, OpenSegments(f, files[1..], first + |log|, LastTime(log, last)))
  {
    KeptWhole(f, first, log, last, false);
    assert EncodeAll(f, log) + [] == EncodeAll(f, log);
    assert files[0] == SegmentFile(first, EncodeAll(f, log));
    OpenOne(f, files, log, 0, first, last);
  }

  /** The walk recovers exactly the logs, whatever part of the next record reached the disk. */
  lemma {:induction false} OpenLaid(f: Framing, files: seq<SegmentFile>, logs: seq<seq<Record>>, first: nat,
                                    last: nat, r: Record, torn: bytes)
    requires Lawful(f) && Laid(f, files, logs, first, torn)
    requires Chained(f, Flat(logs), first, last)
    requires TornNext(f, first + |Flat(logs)|, LastTime(Flat(logs), last), r, torn)
    ensures OpenSegments(f, files, first, last) == Opened(logs, SeenIn(r, |torn|))
    decreases |files|
  {
    var log, rest := logs[0], logs[1..];
    assert Flat(logs) == log + Flat(rest);
    hide Chained, Lawful;
    ChainedConcat(f, log, Flat(rest), first, last);
    if |files| == 1 {
      assert rest == [] && log + [] == log;
      OpenLastFile(f, files[0], log, first, last, r, torn);
      assert files == [files[0]] && logs == [log];
    } else {
      OpenLaid(f, files[1..], rest, first + |log|, LastTime(log, last), r, torn);
      OpenWholeFile(f, files, log, first, last);
      assert logs == [log] + rest;
    }
  }

  lemma {:induction false} PlacedIsLaid(f: Framing, files: seq<SegmentFile>, segments: seq<Segment>,
                                        logs: seq<seq<Record>>, first: nat, torn: bytes)
    requires first > 0 && logs != [] && Placed(f, files, segments, logs, first)
    ensures Laid(f, TornFiles(files, torn), logs, first, torn)
    decreases |logs|
  {
    assert logs[..0] == [] && files[0] == SegmentFile(StartOf(logs, first, 0), EncodeAll(f, logs[0]));
    if |logs| > 1 {
      DropKeepsPlaced(f, State(files, 0, segments, Stats(0, 0, 0, 0), None, 0), logs, first);
      hide EncodeAll, Placed;
      PlacedIsLaid(f, files[1..], segments[1..], logs[1..], first + |logs[0]|, torn);
      assert TornFiles(files, torn)[1..] == TornFiles(files[1..], torn);
      assert EncodeAll(f, logs[0]) + [] == EncodeAll(f, logs[0]);
    }
  }

  lemma OpenCore(f: Framing, l: Limits, s: State, logs: seq<seq<Record>>, r: Record, torn: bytes)
    requires Lawful(f) && Core(f, l, s, logs)
    requires TornNext(f, s.stats.lastSequence + 1, LastTime(Flat(logs), 0), r, torn)
    ensures OpenAccepts(f, l, TornFiles(s.files, torn), s.checkpointFile) <==> FirstSequence(s) == 1
    ensures FirstSequence(s) == 1 ==> OpenSegments(f, TornFiles(s.files, torn), 1, 0) == Opened(logs, SeenIn(r, |torn|))
  {
    PlacedIsLaid(f, s.files, s.segments, logs, FirstSequence(s), torn);
    OpenLaid(f, TornFiles(s.files, torn), logs, FirstSequence(s), 0, r, torn);
    assert TornFiles(s.files, torn)[0].start == FirstSequence(s);
  }

  /** A crash at any byte of the append of `r`: the log comes back with exactly the records it had. */
  lemma CrashDuringAppend(f: Framing, l: Limits, s: State, logs: seq<seq<Record>>, r: Record, k: nat)
    requires Lawful(f) && Core(f, l, s, logs)
    requires f.storable(r) && r.sequence == s.stats.lastSequence + 1 && s.lastRecordedAt <= r.recordedAt
    requires k < |f.encode(r)|
    ensures OpenAccepts(f, l, TornFiles(s.files, f.encode(r)[..k]), s.checkpointFile) <==> FirstSequence(s) == 1
    ensures FirstSequence(s) == 1 ==>
      OpenSegments(f, TornFiles(s.files, f.encode(r)[..k]), 1, 0) == Opened(logs, SeenIn(r, k))
  {
    assert Chained(f, [r], s.stats.lastSequence + 1, LastTime(Flat(logs), 0));
    OpenCore(f, l, s, logs, r, f.encode(r)[..k]);
  }

  /**
   The directory of a log at rest reopens if and only if its first segment still
   starts at sequence 1; then nothing is lost and nothing is added.
   */
  lemma ReopenExactly(f: Framing, l: Limits, s: State, logs: seq<seq<Record>>)
    requires Lawful(f) && Core(f, l, s, logs)
    ensures OpenAccepts(f, l, s.files, s.checkpointFile) <==> FirstSequence(s) == 1
    ensures FirstSequence(s) == 1 ==> OpenSegments(f, s.files, 1, 0) == Opened(logs, 0)
  {
    OpenCore(f, l, s, logs, Record(0, 0, []), []);
    var n := |s.files| - 1;
    assert s.files[n].content + [] == s.files[n].content;
    assert TornFiles(s.files, []) == s.files;
  }

  /** Once compaction has removed one segment the directory never opens again. */
  lemma CompactedNeverReopens(f: Framing, l: Limits, s: State, logs: seq<seq<Record>>)
    requires Lawful(f) && Core(f, l, s, logs) && |logs| > 1
    requires s.segments[0].end <= s.stats.checkpoint
    ensures s.segments[0].bytes <= s.stats.bytes && s.segments[0].records <= s.stats.records
    ensures !OpenAccepts(f, l, Dropped(s).files, Dropped(s).checkpointFile)
  {
    DropKeepsCore(f, l, s, logs);
    ReopenExactly(f, l, Dropped(s), logs[1..]);
  }

  // ----- exactly which directories hold a log -----

  /** Nothing, or bytes that do not complete the next record. */
  ghost predicate TornTail(f: Framing, torn: bytes, next: nat, last: nat, seen: nat) {
    if torn == [] then seen == 0 else f.parse(torn, next, last) == Torn(seen)
  }

  /** The file is the encoding of `log`, followed by a torn tail if it is the last file. */
  ghost predicate Holds(f: Framing, file: SegmentFile, log: seq<Record>, seen: nat, finalSegment: bool) {
    var n := |EncodeAll(f, log)|;
    && n <= |file.content| && file.content[..n] == EncodeAll(f, log) && Chained(f, log, file.start, 0)
    && TornTail(f, file.content[n..], file.start + |log|, LastTime(log, 0), seen)
    && (finalSegment || n == |file.content|)
  }

  ghost predicate Directory(f: Framing, files: seq<SegmentFile>, logs: seq<seq<Record>>, seen: nat, first: nat) {
    && |files| == |logs|
    && forall i {:trigger files[i]} {:trigger logs[i]} :: 0 <= i < |files| ==>
         && files[i].start == StartOf(logs, first, i)
         && Holds(f, files[i], logs[i], if i == |files| - 1 then seen else 0, i == |files| - 1)
  }

  lemma KeptExactly(f: Framing, file: SegmentFile, finalSegment: bool, log: seq<Record>, seen: nat)
    requires Lawful(f)
    ensures Kept(f, file, finalSegment) == Opened([log], seen) <==> Holds(f, file, log, seen, finalSegment)
  {
    var b, start, n := file.content, file.start, |EncodeAll(f, log)|;
    ScanSound(f, b, start, 0);
    hide Lawful;
    if Holds(f, file, log, seen, finalSegment) {
      assert b == EncodeAll(f, log) + b[n..];
      ScanStops(f, log, b[n..], start + |log|, LastTime(log, 0));
      ScanOver(f, log, b[n..], start, 0, Scan(f, b[n..], start + |log|, LastTime(log, 0)));
    }
    if Kept(f, file, finalSegment) == Opened([log], seen) {
      assert [log][0] == log;
    }
  }

  lemma DirectoryCons(f: Framing, files: seq<SegmentFile>, logs: seq<seq<Record>>, seen: nat, first: nat)
    requires files != [] && logs != []
    ensures Directory(f, files, logs, seen, first) <==>
      && files[0].start == first && Holds(f, files[0], logs[0], if |files| == 1 then seen else 0, |files| == 1)
      && Directory(f, files[1..], logs[1..], seen, first + |logs[0]|)
  {
    hide Holds;
    assert logs[..0] == [] && StartOf(logs, first, 0) == first;
    forall i | 0 < i < |logs|
      ensures StartOf(logs, first, i) == StartOf(logs[1..], first + |logs[0]|, i - 1)
    {
      DropStarts(logs, first, i - 1);
    }
    hide StartOf;
    var fs, ls := files[1..], logs[1..];
    if Directory(f, fs, ls, seen, first + |logs[0]|) {
      assert forall i :: 0 < i < |files| ==> files[i] == fs[i - 1];
      assert forall i :: 0 < i < |logs| ==> logs[i] == ls[i - 1];
    }
    if Directory(f, files, logs, seen, first) {
      assert forall i :: 0 <= i < |fs| ==> fs[i] == files[i + 1];
      assert forall i :: 0 <= i < |ls| ==> ls[i] == logs[i + 1];
    }
  }

  /** A scan that starts without a fence, and a first time not before the fence. */
  lemma ChainedFence(f: Framing, log: seq<Record>, first: nat, last: nat)
    ensures Chained(f, log, first, last) <==> Chained(f, log, first, 0) && (log != [] ==> last <= log[0].recordedAt)
  {
  }

  lemma UnderExactly(log: seq<Record>, own: nat, o: Opened, logs: seq<seq<Record>>, seen: nat)
    requires logs != []
    ensures Under(log, own, o) == Opened(logs, seen) <==>
      o.Opened? && logs[0] == log && o.logs == logs[1..] && seen == if o.logs == [] then own else o.seen
  {
    assert logs == [logs[0]] + logs[1..];
    if o.Opened? {
      assert ([log] + o.logs)[1..] == o.logs;
    }
  }

  /** What a kept file holds is one list of records, and only the last file can show the time of a torn one. */
  lemma KeptOne(f: Framing, file: SegmentFile, finalSegment: bool)
    ensures var kept := Kept(f, file, finalSegment);
      kept.Opened? ==> kept == Opened([kept.logs[0]], kept.seen) && (!finalSegment ==> kept.seen == 0)
  {
  }

  /** One file and what follows: the file is accepted, its first time does not go back, and the rest is accepted. */
  lemma OpenFirst(f: Framing, files: seq<SegmentFile>, first: nat, last: nat, logs: seq<seq<Record>>, seen: nat)
    requires Lawful(f) && files != [] && logs != []
    ensures OpenSegments(f, files, first, last) == Opened(logs, seen) <==>
      && files[0].start == first && Chained(f, logs[0], first, last)
      && Holds(f, files[0], logs[0], if |files| == 1 then seen else 0, |files| == 1)
      && OpenSegments(f, files[1..], first + |logs[0]|, LastTime(logs[0], last)) ==
         Opened(logs[1..], if |files| == 1 then 0 else seen)
  {
    var log, own := logs[0], if |files| == 1 then seen else 0;
    var kept := Kept(f, files[0], |files| == 1);
    KeptExactly(f, files[0], |files| == 1, log, own);
    KeptOne(f, files[0], |files| == 1);
    ChainedFence(f, log, first, last);
    assert Holds(f, files[0], log, own, |files| == 1) && files[0].start == first ==> Chained(f, log, first, 0);
    hide Kept, Holds, Chained, Lawful, Under, LastTime;
    if kept.Opened? && files[0].start == first {
      var held := kept.logs[0];
      if held == [] || last <= held[0].recordedAt {
        OpenUnder(f, files, first, last, held, kept.seen);
        hide OpenSegments;
        var rest := OpenSegments(f, files[1..], first + |held|, LastTime(held, last));
        WalkSize(f, files[1..], first + |held|, LastTime(held, last));
        UnderExactly(held, kept.seen, rest, logs, seen);
      }
    }
  }

  lemma OpenUnder(f: Framing, files: seq<SegmentFile>, first: nat, last: nat, held: seq<Record>, own: nat)
    requires files != [] && files[0].start == first && Kept(f, files[0], |files| == 1) == Opened([held], own)
    requires held == [] || last <= held[0].recordedAt
    ensures OpenSegments(f, files, first, last) ==
      Under(held, own, OpenSegments(f, files[1..], first + |held|, LastTime(held, last)))
  {
    hide Kept, LastTime, Under;
  }

  lemma WalkSize(f: Framing, files: seq<SegmentFile>, first: nat, last: nat)
    ensures OpenSegments(f, files, first, last).Opened? ==> (OpenSegments(f, files, first, last).logs == [] <==> files == [])
    ensures files == [] ==> OpenSegments(f, files, first, last) == Opened([], 0)
  {
  }

  lemma {:induction false} WalkExactly(f: Framing, files: seq<SegmentFile>, first: nat, last: nat, logs: seq<seq<Record>>, seen: nat)
    requires Lawful(f) && files != []
    ensures OpenSegments(f, files, first, last) == Opened(logs, seen) <==>
      Directory(f, files, logs, seen, first) && Chained(f, Flat(logs), first, last)
    decreases |files|
  {
    if logs == [] {
      WalkSize(f, files, first, last);
    } else {
      var log, rest := logs[0], logs[1..];
      OpenFirst(f, files, first, last, logs, seen);
      DirectoryCons(f, files, logs, seen, first);
      ChainedConcat(f, log, Flat(rest), first, last);
      assert Flat(logs) == log + Flat(rest);
      hide Holds, OpenSegments, Lawful, Directory, Chained, Flat;
      if |files| == 1 {
        assert files[1..] == [];
        WalkSize(f, files[1..], first + |log|, LastTime(log, last));
        NothingHeld(f, rest, seen, first + |log|, LastTime(log, last));
      } else {
        WalkExactly(f, files[1..], first + |log|, LastTime(log, last), rest, seen);
      }
    }
  }

  lemma NothingHeld(f: Framing, logs: seq<seq<Record>>, seen: nat, first: nat, last: nat)
    ensures Directory(f, [], logs, seen, first) <==> logs == []
    ensures logs == [] ==> Chained(f, Flat(logs), first, last)
  {
  }

  /** The bytes of the last file past its records. */
  function TailOf(f: Framing, files: seq<SegmentFile>, logs: seq<seq<Record>>): bytes
    requires |files| == |logs| > 0 && |EncodeAll(f, logs[|logs| - 1])| <= |files[|files| - 1].content|
  {
    files[|files| - 1].content[|EncodeAll(f, logs[|logs| - 1])|..]
  }

  lemma TornIsShort(f: Framing, torn: bytes, next: nat, last: nat, seen: nat)
    requires Lawful(f) && TornTail(f, torn, next, last, seen)
    ensures |torn| < HEADER_BYTES || Announced(f, torn, next, seen)
  {
    assert Law(f, Back(torn, next, last));
  }

  lemma TailShort(f: Framing, files: seq<SegmentFile>, logs: seq<seq<Record>>, seen: nat)
    requires Lawful(f) && files != [] && Directory(f, files, logs, seen, 1)
    ensures |EncodeAll(f, logs[|logs| - 1])| <= |files[|files| - 1].content|
    ensures |TailOf(f, files, logs)| < HEADER_BYTES || Announced(f, TailOf(f, files, logs), 1 + |Flat(logs)|, seen)
  {
    var n := |files| - 1;
    assert Holds(f, files[n], logs[n], seen, true) && files[n].start == StartOf(logs, 1, n);
    FlatSnoc(logs[..n], logs[n]);
    assert logs[..n] + [logs[n]] == logs;
    hide Lawful, Directory, Flat, EncodeAll, Chained, Announced, TornTail;
    TornIsShort(f, TailOf(f, files, logs), files[n].start + |logs[n]|, LastTime(logs[n], 0), seen);
  }

  /**
   A directory opens as `logs` if and only if its files are the encodings of these records in
   order, numbered from 1 with times that never go back, and whatever else there is stands at
   the very end and is too short for a header or for the payload its header announces.
   */
  lemma OpensExactly(f: Framing, files: seq<SegmentFile>, logs: seq<seq<Record>>, seen: nat)
    requires Lawful(f) && files != []
    ensures OpenSegments(f, files, 1, 0) == Opened(logs, seen) <==>
      Directory(f, files, logs, seen, 1) && Chained(f, Flat(logs), 1, 0)
    ensures OpenSegments(f, files, 1, 0) == Opened(logs, seen) ==>
      && |logs| == |files| && |EncodeAll(f, logs[|logs| - 1])| <= |files[|files| - 1].content|
      && (|TailOf(f, files, logs)| < HEADER_BYTES || Announced(f, TailOf(f, files, logs), 1 + |Flat(logs)|, seen))
  {
    WalkExactly(f, files, 1, 0, logs, seen);
    if Directory(f, files, logs, seen, 1) {
      TailShort(f, files, logs, seen);
    }
    hide Lawful, OpenSegments, Chained, EncodeAll, Flat, TailOf, Announced, Holds;
  }

  // ----- the shortest run that ends in a directory that does not open -----

  const FRESH: State := State([SegmentFile(1, [])], 0, [Segment(1, 0, 0, 0, 0, 0)], Stats(0, 0, 0, 0), None, 0)

  lemma FreshCore(f: Framing, l: Limits)
    requires LimitsValid(l)
    ensures Inv(f, l, FRESH, [[]]) && Flat([[]]) == []
  {
    FlatOne([]);
    var logs: seq<seq<Record>> := [[]];
    assert logs[..0] == [];
  }

  /** Append, rotate because the second record does not fit, append. */
  function TwoSegments(f: Framing, a: bytes, b: bytes, t: nat): State {
    Pushed(f, Rotated(Pushed(f, FRESH, Record(1, t, a))), Record(2, t, b))
  }

  lemma TwoSegmentsCore(f: Framing, l: Limits, a: bytes, b: bytes, t: nat)
    requires Lawful(f) && LimitsValid(l) && l.maxRecords >= 2 && 2 * HEADER_BYTES + |a| + |b| <= l.maxBytes
    requires f.storable(Record(1, t, a)) && f.storable(Record(2, t, b))
    ensures Core(f, l, TwoSegments(f, a, b, t), [[Record(1, t, a)], [Record(2, t, b)]])
    ensures Flat([[Record(1, t, a)], [Record(2, t, b)]]) == [Record(1, t, a), Record(2, t, b)]
  {
    hide Counted, Placed, OnlyLastEmpty, Flat, Lawful, Pending, CheckpointFits, Dated, CursorFits;
    var r1, r2 := Record(1, t, a), Record(2, t, b);
    OneSegmentInv(f, l, r1);
    var one := Pushed(f, FRESH, r1);
    RotateKeeps(f, l, one, [[r1]]);
    assert [[r1]] + [[]] == [[r1], []];
    PushKeeps(f, l, Rotated(one), [[r1], []], r2);
    assert [] + [r2] == [r2] && Extended([[r1], []], r2) == [[r1], [r2]];
  }

  lemma OneSegmentInv(f: Framing, l: Limits, r: Record)
    requires Lawful(f) && LimitsValid(l) && f.storable(r) && r.sequence == 1 && HEADER_BYTES + |r.payload| <= l.maxBytes
    ensures Inv(f, l, Pushed(f, FRESH, r), [[r]]) && Flat([[r]]) == [r]
  {
    hide Counted, Placed, OnlyLastEmpty, Flat, Lawful, Pending, CheckpointFits, Dated, CursorFits;
    FreshCore(f, l);
    PushKeeps(f, l, FRESH, [[]], r);
    assert [] + [r] == [r] && Extended([[]], r) == [[r]];
  }

  /** Checkpoint the first record; compaction then drops its segment. */
  lemma ShortRunIsLost(f: Framing, l: Limits, a: bytes, b: bytes, t: nat)
    requires Lawful(f) && LimitsValid(l) && l.maxRecords >= 2 && 2 * HEADER_BYTES + |a| + |b| <= l.maxBytes
    requires 2 * HEADER_BYTES + |a| + |b| > l.segmentBytes  // so the second append rotates
    requires f.storable(Record(1, t, a)) && f.storable(Record(2, t, b))
    ensures var s := Dropped(Advanced(TwoSegments(f, a, b, t), 1));
      // the directory holds one record past the checkpoint, acknowledged and intact, yet it does not open
      && Core(f, l, s, [[Record(2, t, b)]]) && Pending(s, Flat([[Record(2, t, b)]])) == [Record(2, t, b)]
      && !OpenAccepts(f, l, s.files, s.checkpointFile)
  {
    hide Counted, Placed, OnlyLastEmpty, Lawful, OpenAccepts;
    var logs := [[Record(1, t, a)], [Record(2, t, b)]];
    TwoSegmentsCore(f, l, a, b, t);
    var two := TwoSegments(f, a, b, t);
    AdvanceKeepsCore(f, l, two, logs, 1);
    DropKeepsCore(f, l, Advanced(two, 1), logs);
    CompactedNeverReopens(f, l, Advanced(two, 1), logs);
    assert logs[1..] == [[Record(2, t, b)]];
  }
}
