# Verified models for MASI-NIDS-vNext

This project models the parts of MASI-NIDS-vNext whose correctness does not show
in any single function, and proves what they promise: the edge agent's
write-ahead log and P4Runtime session, the OCI archive inspector, the soak and
traceability validators, the completion deriver, the supply-bundle
producer/verifier pair, the JSON Pointer resolver, and the database module's
traceability pair and resource sampler. `dafny verify dfyconfig.toml` checks
everything.

| file | models |
|---|---|
| `WalScan`, `WalCodec`, `WalState`, `WalRecovery`, `WalRead`, `Wal`, `WalTorn` | segmented write-ahead log (`edge-rs/src/wal.rs`) |
| `Stream`, `Mastership`, `SessionIo` | P4Runtime session (`edge-rs/src/p4runtime.rs`, bounds from `edge-rs/src/config.rs`) |
| `Paths`, `Overlay`, `OverlayScan`, `OverlayOrder`, `OverlayGate`, `OverlaySwap`, `OverlayView`, `OverlayClash`, `OverlayAccepted`, `Descriptors` | OCI archive inspector (`edge-rs/scripts/inspect-oci-archive.py`) |
| `SoakLease`, `SoakTimeline` | soak validators (edge and control) |
| `Traceability`, `EvidenceClosure`, `Completion` | edge evidence aggregation |
| `SupplyBundle`, `CargoLock` | supply manifest builder and verifier |
| `JsonPointer` | pointer resolver of the contract validator |
| `DbTrace`, `Sampler` | database module |
| `Prelude`, `JsonValue` | shared types and sequence facts |

How the models are built:

- What the source changes in place stays imperative. The log, the session
  requests and the completion deriver are classes; the validators are methods
  with the loops of the source, each proved against a specification function or
  a declarative predicate. The lemmas are about those specifications.
- The reader task, the session owners and the target run concurrently. They are
  one step function per arrow of the protocol, and theorems quantify over every
  sequence of steps. The target follows client arbitration as described in
  section 5 of the P4Runtime Specification 1.4.1.
- Clock reads, remote answers and directory contents are parameters. Hashes and
  checksums are arbitrary functions.

Acceptance is proved exact wherever a pass ends in a verdict: a second description,
in paths, digits, bytes, positions and log lines rather than in the state and the
dictionaries of the pass, and an equivalence between the two
(`WalRecovery.OpensExactly`, `OverlayAccepted.ArchiveExactly`,
`Descriptors.GraphExactly`, `SoakLease.AcceptedExactly`,
`SoakTimeline.AcceptedExactly`, `Traceability.QualifiedExactly`).

Where a promise turned out not to hold, the model keeps the code as it is and
proves the exact condition under which it does hold:

- A log directory reopens if and only if its first segment still starts at
  sequence 1. `open` always expects 1, and compaction removes leading segments,
  so after the first compaction the directory is refused with its unread records
  intact (`WalRecovery.ReopenExactly`, `WalRecovery.ShortRunIsLost`).
- The recovery scan takes over the time of a torn record whose header is whole.
  In a segment that holds no record that time stays as the segment's first time,
  and the retention cursor later answers with it, so a fresh record can count as
  expired. This happens exactly when at least a header's worth of bytes follows
  the last whole record of a last segment that has none (`WalTorn.TornHeaderExactly`,
  `Wal.DurableWal.Open`, `WalTorn.NextCursorExactly`, `WalTorn.FreshRecordExpires`).
  In a segment with records the clock fence includes it (`WalTorn.FenceExactly`).
- The inspector's digest is the image's binary if and only if, since the binary
  was last written, no opaque marker cleared the root and no member lay beneath
  the binary path (`Overlay.ReportExactly`, `OverlayScan.RootOpaqueMisreported`).
  Against the OCI rule, that a layer's markers come before its entries, the same
  holds in that rule's order (`OverlayOrder.ReportIsOci`).
- Exchanging two unrelated members of a layer leaves the report of every archive
  alone, unless one is a whiteout without a name in a directory above the binary
  and the other, below that directory, puts an ancestor or the binary in place; and
  then some archive notices (`OverlayClash.SwapExactly`).
- Once a stream has ended, the waiting poll and the non-blocking poll deliver the
  same events if and only if no hint is queued (`Stream.StrandedExactly`).
- The pointer resolver reads a pointer as RFC 6901 does, on every document, if and
  only if the pointer is not empty, every tilde in it begins an escape, no token is
  empty, and every token that reads as an integer is a proper index
  (`JsonPointer.PointerExactly`); a printed path comes back if and only if it is not
  empty and has no empty key (`JsonPointer.RoundTripExactly`).
- The verifier re-reads the builder's inventory if and only if every checksum line
  has the two-character separator and, in text mode, a name that starts with
  neither white space nor a star (`SupplyBundle.BuilderSatisfiesVerifier`,
  `SupplyBundle.EveryCheckPasses`).
- The lock-file parser reads back the written packages if and only if no line after
  an entry sets one of its fields otherwise; Cargo's table of unused patches does
  (`CargoLock.BlocksRoundTrip`, `CargoLock.HarmlessExactly`,
  `CargoLock.UnusedPatchOverwrites`).
- The database checker accepts a built document if and only if every referenced
  sidecar is PASS and QUALIFIED; the builder calls it valid on PASS alone
  (`DbTrace.BuiltIsAccepted`).
- A grant of mastership passes the validation of its own client only, except that
  an empty role name also passes as the default role (`Mastership.GrantIsPersonal`).
- The instant finish + 100 s itself is covered by a lease if and only if the last
  lease expires strictly later (`SoakLease.ClosingInstant`).
- Sample labels follow time if and only if valid samples labelled "cleanup" come
  last; the validators never look at those (`SoakTimeline.LabelsOrderedExactly`).
- The sampler's attempt bound can fire if and only if 400 intervals fit into the
  duration (`Sampler.BoundExactly`).

## Model

| member | source | states |
|---|---|---|
| WalCodec.BigEndianRoundTrip | edge-rs/src/wal.rs:544-563 | big-endian fields decode to the number that was encoded, for every width |
| WalCodec.MostSignificantFirst | edge-rs/src/wal.rs:544-563 | of several bytes the first is the most significant, whatever their number |
| WalCodec.HeaderRoundTrip | edge-rs/src/wal.rs:544-563 | every header that fits its fields is read back unchanged from its 36 bytes |
| WalCodec.HeaderCanonical | edge-rs/src/wal.rs:681-742 | 36 bytes that decode to a header are exactly the encoding of that header |
| WalCodec.ParseEncoded | edge-rs/src/wal.rs:572-679 | an encoded record followed by anything is read back as that record |
| WalCodec.ParseTorn | edge-rs/src/wal.rs:572-679 | a record cut short at any byte reads as torn, never as corrupt, and shows its time exactly once its header is whole |
| WalCodec.ParseSound | edge-rs/src/wal.rs:572-679 | whatever is read as a record is byte for byte the encoding of that record, with the expected sequence and a time that did not go back |
| WalCodec.RecordLayout | edge-rs/src/wal.rs:544-563 | byte by byte where a stored record has its magic, version, kind, flags, sequence, time, length and checksum, and that the checksum covers bytes 8 to 32 and the payload |
| WalCodec.TornExactly | edge-rs/src/wal.rs:594-660 | bytes are put down to a crash if and only if they are too few for a header, or for the payload that a header right in every other field announces |
| WalCodec.WalFramingLawful | edge-rs/src/wal.rs:544-728 | the concrete framing meets every law the log proofs use, for any checksum function |
| WalScan.ScanEncoded | edge-rs/src/wal.rs:572-679 | scanning a file of encoded records gives back exactly those records |
| WalScan.ScanCrashTail | edge-rs/src/wal.rs:572-679 | any proper prefix of one more record leaves exactly the complete records and a torn tail, with that record's time if its header is whole |
| WalScan.ScanSound | edge-rs/src/wal.rs:572-679 | conversely the records a scan reports are chained and their encoding is the part of the file it accepted |
| WalScan.ScanSegment | edge-rs/src/wal.rs:572-679 | the scanning loop returns the summary of those records with the times it has met, a torn header's included, cuts a torn tail off the last segment only, and otherwise leaves the file alone |
| WalState.PushKeeps | edge-rs/src/wal.rs:242-301 | an append keeps the whole log invariant, adds one record to contents and unread records, and keeps segment times exact unless it lands in an empty segment that already carries one |
| WalState.RotateKeeps | edge-rs/src/wal.rs:410-429 | starting a segment keeps the invariant and changes neither contents nor unread records |
| WalState.DropKeepsCore | edge-rs/src/wal.rs:431-447 | dropping a segment at or below the checkpoint keeps the invariant and every unread record |
| WalState.AdvanceKeepsCore | edge-rs/src/wal.rs:341-365 | moving the checkpoint keeps the invariant and drops exactly that many unread records from the front |
| WalRecovery.OpenLaid | edge-rs/src/wal.rs:137-168 | the segment walk recovers exactly the logs laid out in a directory, with any torn part of a next record behind them |
| WalRecovery.OpensExactly | edge-rs/src/wal.rs:137-168 | a directory opens as given records if and only if its files are their encodings in order, numbered from 1 with times that never go back; what else there is stands at the very end and is too short for a header or for the payload its header announces |
| WalRecovery.CrashDuringAppend | edge-rs/src/wal.rs:117-239 | after a crash at any byte of an append the directory opens with exactly the records it had, if and only if its first segment starts at 1; the lost record's time is seen exactly if its header was whole |
| WalRecovery.ReopenExactly | edge-rs/src/wal.rs:136-149 | a directory at rest reopens if and only if its first segment starts at 1, and then nothing is lost or added |
| WalRecovery.SummarisedTimes | edge-rs/src/wal.rs:572-679 | after opening, every segment with records carries the time of its first one, and the last carries a foreign time exactly if it is empty and a torn header showed one |
| WalRecovery.CompactedNeverReopens | edge-rs/src/wal.rs:431-447 | once compaction has dropped a segment the directory is refused |
| WalRecovery.ShortRunIsLost | edge-rs/src/wal.rs:136-149 | two appends of which the second rotates, and a checkpoint, lead to a directory with an intact unread record that does not open |
| WalRead.ReadEncoded | edge-rs/src/wal.rs:762-803 | reading a segment file by its summary gives back its records |
| WalRead.TimeAfterEncoded | edge-rs/src/wal.rs:823-851 | the search over headers for the first record past the checkpoint finds that record's time |
| WalRead.AfterIsSuffix | edge-rs/src/wal.rs:309-338 | on chained records, those past a checkpoint are exactly a suffix |
| WalRead.ReadSegmentRecords | edge-rs/src/wal.rs:762-803 | the reading loop yields the records of the segment or the error of the first that does not parse |
| WalRead.FirstTimestampAfter | edge-rs/src/wal.rs:823-851 | the searching loop, reading headers and seeking over payloads, yields the time of the first record past the checkpoint or the first header error |
| WalRead.ReplayRecords | edge-rs/src/wal.rs:309-338 | one segment's contribution is a prefix of its unread records within both budgets, and the longest one |
| Wal.WalkSegments | edge-rs/src/wal.rs:137-168 | the opening loop accepts exactly the directories of the walk and returns their segments and counters, and the clock fence with a torn time in it if the last segment has records |
| Wal.Recover | edge-rs/src/wal.rs:117-239 | opening checks fail with the first applicable error, otherwise yield a sound state with the records after the checkpoint unread and the segment times the scan met |
| Wal.ReplayFiles | edge-rs/src/wal.rs:309-338 | over all segments, replay is the longest prefix of the unread records within both budgets |
| Wal.OldestPendingTimestamp | edge-rs/src/wal.rs:805-851 | the retention cursor is that of the first segment with an unread record: its own first time if none of its records is checkpointed, else the record's |
| Wal.CursorSuits | edge-rs/src/wal.rs:805-851 | the cursor is set exactly while something is unread, and is the oldest unread time as long as every segment with records carries its first record's time |
| Wal.RetentionExactly | edge-rs/src/wal.rs:390-408 | while segment times are exact an operation passes the fence if and only if the clock has not gone back and no unread record is too old |
| Wal.AppendExactly | edge-rs/src/wal.rs:242-270 | an append is accepted if and only if the fence lets it through and the log with the record added still keeps every limit |
| Wal.EmptyLogAccepts | edge-rs/src/wal.rs:457-468 | valid limits always leave an empty log room for the largest record they allow |
| Wal.DurableWal.Open | edge-rs/src/wal.rs:117-239 | open returns a valid log holding the recovered records, or the first applicable error; its cursor is the oldest unread time, its fence the last time met, and its segment times stay exact if and only if no torn header marked an empty last segment |
| Wal.DurableWal.Append | edge-rs/src/wal.rs:242-301 | an accepted append adds exactly one record with the next sequence, in a file of its own if and only if it does not fit behind the records of the last file, which never outgrows the segment limit; a refused one has the first applicable error and loses nothing; exact segment times stay exact |
| Wal.DurableWal.Commit | edge-rs/src/wal.rs:262-301 | writing and accounting for a checked record keeps the invariant |
| Wal.DurableWal.Rotate | edge-rs/src/wal.rs:410-429 | rotation keeps the invariant, contents and unread records |
| Wal.DurableWal.Replay | edge-rs/src/wal.rs:309-338 | replay returns the oldest unread records, as many as both budgets allow, or the retention error |
| Wal.DurableWal.Checkpoint | edge-rs/src/wal.rs:341-365 | a checkpoint acknowledges exactly the unread records up to its sequence, leaves no removable leading segment and recomputes the cursor, which is the oldest unread time if segment times are exact |
| Wal.DurableWal.Compact | edge-rs/src/wal.rs:431-447 | compaction drops a prefix of segments, never an unread record, until the first segment is needed |
| WalTorn.TornHeaderExactly | edge-rs/src/wal.rs:594-650 | in every directory that opens, a torn time is seen exactly if at least 36 bytes follow the last whole record |
| WalTorn.FenceExactly | edge-rs/src/wal.rs:157-166 | the clock fence is the last stored time exactly if no torn header in a segment with records showed another |
| WalTorn.MarkAnswers | edge-rs/src/wal.rs:805-821 | an append to an empty marked segment and a checkpoint of everything before it make the cursor answer with the mark |
| WalTorn.NextCursorExactly | edge-rs/src/wal.rs:805-821 | after an append and a checkpoint of everything before it, the cursor is the record's time if and only if the segment it went to was not empty with another time on it |
| WalTorn.TornSecondOpens | edge-rs/src/wal.rs:594-650 | a crash inside the first payload of a new segment leaves a directory that opens with the lost record's time seen |
| WalTorn.FreshRecordExpires | edge-rs/src/wal.rs:805-821 | from that directory, one append and one checkpoint lead to a log that declares itself expired while its only unread record is within its age |
| Stream.RunConserves | edge-rs/src/p4runtime.rs:213-280 | in every run before the session is dropped, the reported messages are those of the handled items other than digests and packets, in order, an empty update as its error and the end with its reason; the hints delivered and queued are the digests and packets kept, in order, and each one lost has a notice of its own kind; both queues stay within capacity |
| Stream.HintsCounted | edge-rs/src/p4runtime.rs:241-258 | hints received are hints delivered plus hints queued plus drop notices emitted or pending |
| Stream.HintsAreLast | edge-rs/src/p4runtime.rs:345-359 | a hint is handed out only past an empty high queue and dropped only from a full hint queue |
| Stream.InternalStepsTerminate | edge-rs/src/p4runtime.rs:213-280 | every reading, handling or polling step that does anything uses up a bounded amount of work |
| Stream.EveryRunDrains | edge-rs/src/p4runtime.rs:213-280 | backpressure never wedges the session: after every run, reading and polling alone hand over the message of everything sent, in order, or a drop notice that names its kind |
| Stream.StrandedExactly | edge-rs/src/p4runtime.rs:345-359 | after the stream has ended the two polls collect the same events if and only if no hint is queued |
| Stream.SettledKept | edge-rs/src/p4runtime.rs:216-227 | moving an item through the task does not change the value the flag is heading for |
| Stream.DemotionInFlight | edge-rs/src/p4runtime.rs:216-227 | a set flag heading for false has a demoting item still undelivered |
| Stream.OverForever | edge-rs/src/p4runtime.rs:264-277 | once the end of the stream is handled the flag is false after every further run |
| Stream.GrantAfterDrop | edge-rs/src/p4runtime.rs:512-517 | dropping a session while its task holds a grant lets the flag become true again, with no owner left to read it |
| Mastership.NoticeEffect | edge-rs/src/p4runtime.rs:544-570 | the notice a client gets grants exactly when it is primary, and a grant passes that client's validation |
| Mastership.GrantIsPersonal | edge-rs/src/p4runtime.rs:544-570 | an answer to one request passes another client's validation if and only if it is a grant and device, election and role agree, an empty role name also counting as the default role |
| Mastership.ActKeeps | edge-rs/src/p4runtime.rs:203-280 | every step of any session or of the target keeps the mastership invariant |
| Mastership.MastershipSafety | edge-rs/src/p4runtime.rs:326-330 | in every run a session whose primary flag is set, whatever its pipeline verdict, is the target's primary or has its demotion undelivered |
| Mastership.OneQuietPrimary | edge-rs/src/p4runtime.rs:326-330 | two sessions with nothing in flight never both have their flag set |
| Mastership.OneQuietWriter | edge-rs/src/p4runtime.rs:382-408 | two sessions with nothing in flight never both pass the write gate |
| Mastership.QuietFlagIsExact | edge-rs/src/p4runtime.rs:326-330 | with nothing in flight the flag is set exactly for the primary |
| Mastership.QuietGateIsExact | edge-rs/src/p4runtime.rs:382-408 | with nothing in flight the gate is open exactly for the primary whose last look at the pipeline found it exact |
| Mastership.NeverWritesAgain | edge-rs/src/p4runtime.rs:264-277 | a session whose stream has ended, or that was dropped, never passes the gate again, whatever anybody does |
| Mastership.ConnectsExactly | edge-rs/src/p4runtime.rs:180-209 | a client connects if and only if the first answer it reads is a grant |
| Mastership.WritesFenced | edge-rs/src/p4runtime.rs:401-408 | once a write of a later election is applied, no write of an earlier one is |
| Mastership.StaleWindow | edge-rs/src/p4runtime.rs:382-408 | the stale window is real: in one run a demoted and a new primary both pass their own gates |
| SessionIo.ChunksCover | edge-rs/src/p4runtime.rs:424-432 | batches concatenate to the input, each has 1 to limit updates and all but the last are full |
| SessionIo.ExactMeansEqual | edge-rs/src/p4runtime.rs:616-658 | the pipeline comparison succeeds exactly on equal identities with valid digests and a non-zero cookie |
| SessionIo.CollectResponses | edge-rs/src/p4runtime.rs:435-486 | a read succeeds exactly if all responses arrive within both limits, returning their concatenation; otherwise the error names the response that broke a rule first |
| SessionIo.QualifiedRepliesFit | edge-rs/src/config.rs:419-428 | with validated limits a reply within the qualified table capacity never trips the entity limit |
| SessionIo.P4Session.Write | edge-rs/src/p4runtime.rs:382-421 | nothing is sent unless the gate is open and the count is within bounds |
| SessionIo.P4Session.WriteBatched | edge-rs/src/p4runtime.rs:424-432 | a failure at batch k leaves exactly the first k batches accepted and none after k tried; every request sent saw the flag set and the pipeline exact |
| SessionIo.P4Session.Read | edge-rs/src/p4runtime.rs:435-486 | a read succeeds exactly with a bounded request, an opened stream and a reply within both limits |
| SessionIo.P4Session.ReverifyPipeline | edge-rs/src/p4runtime.rs:489-509 | success means the readback equals the expectation; a mismatch closes the gate and a failed read leaves it as it was |
| SessionIo.EnsureDistinctPaths | edge-rs/src/config.rs:523-535 | the pair scan accepts exactly lists without a repeated path |
| Paths.SafeNamesExactly | edge-rs/scripts/inspect-oci-archive.py:62-71 | accepted names are exactly the bare root and those within 1,024 bytes whose components are all non-empty and neither "." nor ".." |
| Paths.NamesCanonical | edge-rs/scripts/inspect-oci-archive.py:62-71 | accepted names are equal as strings if and only if equal as component lists |
| Paths.SafeLinksExactly | edge-rs/scripts/inspect-oci-archive.py:74-84 | a link is accepted if and only if it has 1 to 1,024 bytes and walking it never leaves the root at any prefix |
| Paths.NormaliseEscapes | edge-rs/scripts/inspect-oci-archive.py:74-84 | path normalisation leaves a leading ".." exactly when the walk went above its start at some prefix |
| Paths.BeneathExactly | edge-rs/scripts/inspect-oci-archive.py:579-602 | the string test for a directory prefix means strictly beneath, component by component |
| Overlay.ApplyAt | edge-rs/scripts/inspect-oci-archive.py:545-632 | what a member does to any one path of the reference filesystem, whatever else that holds |
| Overlay.TreeAlways | edge-rs/scripts/inspect-oci-archive.py:545-632 | the reference filesystem is a tree after every sequence of members |
| Overlay.OpaqueHidesExactly | edge-rs/scripts/inspect-oci-archive.py:579-588 | the string tests of an opaque marker reach exactly the paths beneath its directory, and nothing for the root |
| Overlay.WhiteoutHidesExactly | edge-rs/scripts/inspect-oci-archive.py:589-603 | the string tests of a whiteout reach exactly the removed path and what is beneath it; a nameless one acts like an opaque marker |
| Overlay.StepFollows | edge-rs/scripts/inspect-oci-archive.py:578-632 | one tracker step keeps or writes a digest only where the filesystem keeps or gets that file, and drops it only where the file is lost |
| Overlay.ReportExactly | edge-rs/scripts/inspect-oci-archive.py:519-655 | for every accepted archive, the reported digest and size are the full filesystem's, if and only if nothing overlooked followed the last write of the binary |
| Overlay.BinaryParents | edge-rs/scripts/inspect-oci-archive.py:611-632 | whenever a binary member is accepted, every ancestor in the filesystem is a directory or absent |
| OverlayScan.ScanName | edge-rs/scripts/inspect-oci-archive.py:578-632 | the branches over one member compute the tracker step |
| OverlayScan.ScanLayer | edge-rs/scripts/inspect-oci-archive.py:545-632 | the member loop with its resource, uniqueness and safety checks is the tracker over that layer, and passes only members whose names are proper and whose links stay inside the root |
| OverlayScan.InspectLayers | edge-rs/scripts/inspect-oci-archive.py:519-655 | all layers: the report, exactly when it equals the filesystem's digest, and that on acceptance no name or link of the archive leads out of the root |
| OverlayGate.AllowedExactly | edge-rs/scripts/inspect-oci-archive.py:552-577 | a member passes the safety checks if and only if its name is proper, it is no special file, a file is within its size, and a link has 1 to 1,024 bytes and its walk never leaves the root at any prefix |
| OverlayGate.LayersContained | edge-rs/scripts/inspect-oci-archive.py:519-632 | whatever is not refused has every name and every link of every layer inside the root |
| OverlayScan.TameLayers | edge-rs/scripts/inspect-oci-archive.py:545-632 | without root opaque markers, nameless whiteouts and members beneath the binary, tracked and actual digest agree at every point, present or absent |
| OverlayScan.RootOpaqueMisreported | edge-rs/scripts/inspect-oci-archive.py:579-588 | an opaque marker at the root of a later layer deletes the binary while the inspector still reports it |
| OverlayOrder.StreamIsOci | edge-rs/scripts/inspect-oci-archive.py:545-632 | streaming a layer gives at a path what the OCI rule gives if and only if no entry acts there or the last entry to act does what the last change does |
| OverlayOrder.LeadingMarkers | edge-rs/scripts/inspect-oci-archive.py:545-632 | that condition holds at every path when no marker follows an entry it would hide |
| OverlayOrder.LateWhiteoutDiffers | edge-rs/scripts/inspect-oci-archive.py:589-603 | on any filesystem an entry followed by its own whiteout differs from the OCI rule |
| OverlayOrder.ReportIsOci | edge-rs/scripts/inspect-oci-archive.py:519-655 | for every accepted archive in any member order, the digest is the binary of the image the OCI rule builds if and only if nothing is overlooked after the last write in that rule's order, which follows from the same in the archive's order |
| OverlaySwap.SwapUnrelated | edge-rs/scripts/inspect-oci-archive.py:545-632 | exchanging neighbours that are not at, above or below one another changes no path |
| OverlaySwap.SwapKeepsReport | edge-rs/scripts/inspect-oci-archive.py:519-655 | two accepted archives that differ by such an exchange in any one layer, one of them with nothing overlooked, report the same binary, and the other has nothing overlooked either |
| OverlayView.OutOfSight | edge-rs/scripts/inspect-oci-archive.py:578-632 | a member away from the binary path and all its parents leaves the tracker alone unless it is a nameless whiteout above the binary |
| OverlayView.NameSees | edge-rs/scripts/inspect-oci-archive.py:578-632 | one member acts on the held digest and on which ancestors stand by its change alone, and is refused exactly if it is at the binary path and no acceptable file below standing ancestors |
| OverlayAccepted.LetThroughExactly | edge-rs/scripts/inspect-oci-archive.py:548-632 | one member is let through if and only if counts and bytes stay within their ceilings, it is contained, its name is new in the layer, and at the binary path it is a file of 1 to 67,108,864 bytes below standing directories |
| OverlayAccepted.ArchiveExactly | edge-rs/scripts/inspect-oci-archive.py:519-632 | the scan passes exactly the archives with at most 65,536 members and 536,870,912 expanded bytes, every member contained, no path twice in a layer, and the binary written only under directories |
| OverlayView.AlikeLayers | edge-rs/scripts/inspect-oci-archive.py:519-655 | trackers with the same digest, standing ancestors and counts are never told apart by any later layers |
| OverlayClash.SwapSameReport | edge-rs/scripts/inspect-oci-archive.py:519-655 | an exchange of unrelated members that is not noticeable leaves verdict and report of every archive alone, accepted or not |
| OverlayClash.ClashShows | edge-rs/scripts/inspect-oci-archive.py:589-632 | every clash of two usable members shows in the report of some archive that begins with them |
| OverlayClash.SwapExactly | edge-rs/scripts/inspect-oci-archive.py:519-655 | exchanging two unrelated members leaves the report of every archive alone if and only if it is not the case that both are usable and one is a nameless whiteout above the binary while the other puts a directory, an opaque marker or the binary in place below it |
| OverlayClash.NamelessOrderMatters | edge-rs/scripts/inspect-oci-archive.py:589-603 | the smallest case: an archive is accepted in one order and refused in the other, for every binary |
| Descriptors.ReadBounded | edge-rs/scripts/inspect-oci-archive.py:32-45 | chunked reading returns exactly the members within their ceiling, whole |
| Descriptors.DescriptorBlob | edge-rs/scripts/inspect-oci-archive.py:113-142 | a descriptor is followed exactly if path, regular file, size and digest all agree and the size is within bounds |
| Descriptors.CheckManifest | edge-rs/scripts/inspect-oci-archive.py:303-356 | the manifest passes exactly if media types fit and config and every layer are verified within bounds; yields as many paths as layers, the i-th being "blobs/sha256/" and the 64 digits of the i-th layer, and that of the config |
| Descriptors.CheckAttestation | edge-rs/scripts/inspect-oci-archive.py:358-410 | an attestation passes exactly if it has the frozen shape, refers to this image and all three of its blobs are verified |
| Descriptors.FindImage | edge-rs/scripts/inspect-oci-archive.py:215-302 | finds the one image descriptor and its attestations exactly when both index levels are in order |
| Descriptors.InspectGraph | edge-rs/scripts/inspect-oci-archive.py:215-487 | accepts exactly the archives whose two index levels name one image, whose descriptors all verify, whose legacy index has the one tag, the config and, layer by layer, the layers of the image manifest, and whose regular members are the three fixed files and the referenced blobs |
| Descriptors.GraphExactly | edge-rs/scripts/inspect-oci-archive.py:215-487 | that acceptance said without the pass, in paths, digits, media types, sizes and positions |
| Descriptors.LegacyExactly | edge-rs/scripts/inspect-oci-archive.py:412-477 | the legacy index agrees if and only if it holds one image with the one tag, the config path, and at every position the path of the manifest's layer there, no digest twice |
| Descriptors.AcceptedIsClosed | edge-rs/scripts/inspect-oci-archive.py:457-487 | on acceptance the regular members are exactly the fixed files and the blobs reachable from index.json through a chain of verified descriptors |
| Descriptors.EveryBlobBound | edge-rs/scripts/inspect-oci-archive.py:457-487 | on acceptance every other regular member is a non-empty blob whose path is its own content digest |
| SoakLease.CheckRenewal | edge-rs/scripts/validate-soak-evidence.py:242-293 | one renewal draws no failure exactly when it meets every demand relative to its predecessor |
| SoakLease.CheckLeases | edge-rs/scripts/validate-soak-evidence.py:224-298 | the lease pass finds no failure exactly on acceptable renewals of a formal run |
| SoakLease.AcceptedExactly | edge-rs/scripts/validate-soak-evidence.py:232-298 | acceptance means exactly: one target and lease throughout, each renewal chained to the one before within 130 s, every time in step with the clocks, from 130 s after the start to 100 s past the end |
| SoakLease.LeaseCoverage | edge-rs/scripts/validate-soak-evidence.py:232-298 | accepted renewals leave no instant before finish + 100 s without an unexpired recorded lease |
| SoakLease.ClosingInstant | edge-rs/scripts/validate-soak-evidence.py:518-537 | the instant finish + 100 s itself is covered if and only if the last lease expires strictly later |
| SoakLease.ClosingInstantCanFail | edge-rs/scripts/validate-soak-evidence.py:518-537 | for every start there is an accepted run of full formal length, within the evidence schema, whose closing instant is uncovered |
| SoakLease.Cadence | edge-rs/scripts/validate-soak-evidence.py:279-298 | consecutive wall observations are at most 140 s apart and no renewal comes closer than 100 s to expiry |
| SoakTimeline.CheckPhases | edge-rs/scripts/validate-soak-evidence.py:399-447 | the phase loop finds no failure exactly when every phase is complete and contiguous, and records its bounds |
| SoakTimeline.CheckTimeline | edge-rs/scripts/validate-soak-evidence.py:399-505 | phases and samples draw no failure exactly if the run was scheduled and sampled as demanded, phase by phase, for both validators |
| SoakTimeline.AcceptedExactly | edge-rs/scripts/validate-soak-evidence.py:383-505 | acceptance means exactly: the four phases in order each passed without errors for 900 s or more right after one another, over the hour claimed; offsets in order; and under each label enough valid samples, one within 20 s of either end, none outside |
| SoakTimeline.PhasePartition | edge-rs/scripts/validate-soak-evidence.py:399-447 | acceptance gives four disjoint ordered phases of at least 899 s, at most 5 s apart, right after the warm-up |
| SoakTimeline.SampleFloor | edge-rs/scripts/validate-soak-evidence.py:455-474 | acceptance gives at least 345 valid samples |
| SoakTimeline.LabelsFollowTime | edge-rs/scripts/validate-soak-evidence.py:475-505 | of two valid samples, cleanup aside, the earlier never carries the later label |
| SoakTimeline.StrictLabelsInOrder | control-go/scripts/validate-soak-evidence.py:202-219 | under strict offsets the recorded labels never step back |
| SoakTimeline.EdgeLabelsInOrder | edge-rs/scripts/validate-soak-evidence.py:204-223 | under the edge order they step back only between samples at the same offset |
| SoakTimeline.LabelsOrderedExactly | edge-rs/scripts/validate-soak-evidence.py:458-505 | all labels follow time if and only if valid cleanup samples come last |
| SoakTimeline.EarlyCleanupAccepted | edge-rs/scripts/validate-soak-evidence.py:458-505 | a cleanup sample put before everything else keeps evidence accepted and breaks the label order |
| Traceability.CheckBindings | edge-rs/scripts/validate-traceability.py:717-760 | the binding loop finds no failure exactly on well-formed bindings with distinct commands and unshared targets |
| Traceability.BindingsExactly | edge-rs/scripts/validate-traceability.py:717-760 | said without its dictionaries: identifiers of lower-case letters, digits and hyphens, the log named after the command, a known mode, and no two bindings with a command or a target in common |
| Traceability.OwnerUnique | edge-rs/scripts/validate-traceability.py:748-760 | in accepted bindings a target belongs to one binding only |
| Traceability.PassedHasLine | edge-rs/scripts/validate-traceability.py:221-228 | a test counts as passed if and only if the log holds a line "test", its path in letters, digits, underscores and colons, "... ok", with the name after the last "::" |
| Traceability.NamePasses | edge-rs/scripts/validate-traceability.py:221-228 | for a name without colons any such line will do, with nothing or a module path ending in "::" before the name |
| Traceability.ExitExactly | edge-rs/scripts/validate-traceability.py:207-218 | which result, qualification and reason a sidecar must state for each exit code |
| Traceability.CheckCommand | edge-rs/scripts/validate-traceability.py:899-1008 | a command draws no failure exactly if it is absent and optional, or whole, not oversized and consistent with its log, run and exit code |
| Traceability.CollectRuns | edge-rs/scripts/validate-traceability.py:894-1008 | the command loop collects only runs that come from the evidence directory |
| Traceability.CheckTargets | edge-rs/scripts/validate-traceability.py:1395-1440 | the target loop fails exactly when a target has no run, a failed command, or no line of its own in the log of passed Rust tests |
| Traceability.CheckRequirement | edge-rs/scripts/validate-traceability.py:1324-1477 | a requirement is qualified exactly if all its logs, documents and targets are |
| Traceability.Validate | edge-rs/scripts/validate-traceability.py:717-1477 | no failures and QUALIFIED together if and only if the bindings are in order, what they name is whole and consistent, and every requirement has evidence that all traces to commands that exited 0 |
| Traceability.QualifiedExactly | edge-rs/scripts/validate-traceability.py:717-1477 | that verdict said without the dictionaries: each target is listed by one binding whose digest-bound log shows it, each log is that of a command that exited 0, each document is qualified and about the requirement |
| Traceability.QualifiedEndToEnd | edge-rs/scripts/validate-traceability.py:894-1477 | QUALIFIED implies each target is owned by exactly one command that exited 0 with a digest-bound log, with its own passing line if it is a Rust test |
| EvidenceClosure.ChainHasLink | edge-rs/scripts/validate-traceability.py:141-152 | the component loop finds a link exactly if some prefix of the path is one |
| EvidenceClosure.BindDeclared | edge-rs/scripts/validate-traceability.py:256-329 | a declaration draws no failure exactly if its path is safe and new and its file is reached without a link, within size, and agrees in digest, byte count and JSON syntax; then exactly that file is bound |
| EvidenceClosure.BindAll | edge-rs/scripts/validate-traceability.py:458-475 | a list of declarations draws no failure exactly if all hold and no path repeats, and binds exactly their files |
| EvidenceClosure.BindSupply | edge-rs/scripts/validate-traceability.py:332-503 | the supply directory draws no failure exactly if the release manifest and everything it declares hold; a manifest that is no object is bound and not looked into |
| EvidenceClosure.BindOci | edge-rs/scripts/validate-traceability.py:506-609 | the four archive files draw no failure exactly if each is there and agrees with what its parent declares |
| EvidenceClosure.BindProbe | edge-rs/scripts/validate-traceability.py:1131-1165 | a probe is bound exactly if it is the very object embedded in its parent |
| EvidenceClosure.BindLatest | edge-rs/scripts/validate-traceability.py:1177-1275 | the supply pointer draws no failure exactly if it names a run document equal, by content and digest, to the catalogued one |
| EvidenceClosure.CloseEvidence | edge-rs/scripts/validate-traceability.py:1131-1322 | no failure exactly if there is no link, every bound file checks out, and every JSON file is catalogued, a command sidecar or bound |
| EvidenceClosure.ClosedIsVouched | edge-rs/scripts/validate-traceability.py:1297-1322 | then every other JSON file is the supply pointer, the one root, itself in order, or is vouched for by a document that embeds it, or that states its digest wherever it states one, or is an aggregator output with its own schema version; the archive files each by the fields of its own |
| EvidenceClosure.ClaimsExactly | edge-rs/scripts/validate-traceability.py:446-503 | what is declared: every item of the three inventory groups with its size, provenance, offline rebuild and signature, and nothing else |
| EvidenceClosure.PointedRun | edge-rs/scripts/validate-traceability.py:1190-1230 | an accepted pointer leads to the document of one run, and the declared files lie in the directory beside it |
| EvidenceClosure.ValidateTree | edge-rs/scripts/validate-traceability.py:852-1477 | requirements and closure over one tree together: no failures and QUALIFIED exactly if both hold |
| EvidenceClosure.QualifiedTree | edge-rs/scripts/validate-traceability.py:852-1477 | QUALIFIED over a tree implies that each target is proved by a log and a sidecar in it, bound by digest and size, and that no JSON file in it is unaccounted for |
| Completion.GroupPasses | edge-rs/scripts/validate-edge-evidence.py:276-346 | a command group passes exactly if every sidecar in it is schema-valid, consistent with this run and its log, and says PASS |
| Completion.StatesExactly | edge-rs/scripts/validate-edge-evidence.py:276-317 | a command state is PASS, HOLD or NOT_RUN exactly if its conforming, consistent sidecar says so, and FAIL otherwise |
| Completion.CombinesExactly | edge-rs/scripts/validate-edge-evidence.py:335-346 | in a group a failure outranks what was not run, that outranks the rest, and a group that merely holds has failed |
| Completion.AllTrueExactly | edge-rs/scripts/validate-edge-evidence.py:477-488 | the nested walk accepts exactly trees whose every leaf is true and whose groups, at any depth, are non-empty |
| Completion.SupplyNeedsEveryCheck | edge-rs/scripts/validate-edge-evidence.py:490-511 | the supply criterion passes only if every leaf of the check tree in the supply document is true |
| Completion.BlockersExactly | edge-rs/scripts/validate-edge-evidence.py:663-663 | the blocker list holds exactly the criteria that do not pass |
| Completion.DirectCanonical | edge-rs/scripts/validate-edge-evidence.py:104-132 | a log path leads to the file its components name; a path in canonical spelling leads to itself |
| Completion.CompletionDeriver.Command | edge-rs/scripts/validate-edge-evidence.py:276-317 | a memoised command state always equals a fresh reading of the run tree, the log looked up by its normalised path |
| Completion.JudgeIsMet | edge-rs/scripts/validate-edge-evidence.py:348-622 | a criterion is PASS exactly if its commands pass and its documents say everything the predicates ask for |
| Completion.JudgeIsIdle | edge-rs/scripts/validate-edge-evidence.py:335-622 | a criterion is NOT_RUN exactly if a command it rests on says so and no command of its group is broken, and never HOLD |
| Completion.CompletionDeriver.Criterion | edge-rs/scripts/validate-edge-evidence.py:624-662 | every criterion computed through the cache equals its cache-free judgement, and is PASS exactly if it is met |
| Completion.PassedIsPresent | edge-rs/scripts/validate-edge-evidence.py:41-57 | every artifact of the report is a file its own criterion had to read in order to pass |
| Completion.CompletionDeriver.Repair | edge-rs/scripts/validate-edge-evidence.py:669-694 | the repair fails exactly the owners of artifacts gone by the time they are digested and changes nothing else |
| Completion.CompletionDeriver.Derive | edge-rs/scripts/validate-edge-evidence.py:624-706 | COMPLETE if and only if the final blocker list is empty, which is when all criteria are met and no artifact is gone; on an unchanged tree that is exactly when all criteria are met; blockers are exactly the unmet criteria or the owners of what is gone |
| SupplyBundle.ParsersAgree | edge-rs/scripts/create-supply-manifest.py:162-167 | on a checksum line with any field, builder and verifier read the same digest and path if and only if the mode is binary or the field starts with neither white space nor a star; otherwise the builder's path is shorter |
| SupplyBundle.ReadAlike | edge-rs/scripts/verify-supply-chain.py:1053-1058 | on every line whatever, both parsers read it and read the same exactly if it is in that common form |
| SupplyBundle.ScriptLines | edge-rs/scripts/run-supply-chain.sh:351-352 | a line with a bare path is in the common form exactly if the path starts with neither white space nor a star; with a leading "./" or in binary mode it always is |
| SupplyBundle.ReadSums | edge-rs/scripts/create-supply-manifest.py:159-195 | the checksum loop succeeds exactly on safe, unrepeated, regular, bounded entries and yields their inventory and total |
| SupplyBundle.BuildInventory | edge-rs/scripts/create-supply-manifest.py:152-211 | the builder succeeds exactly if the inventory is the bundle's whole payload within the limits |
| SupplyBundle.WalkBundle | edge-rs/scripts/verify-supply-chain.py:998-1009 | the verifier's tree walk finds exactly the safely named payload files |
| SupplyBundle.SnapshotFiles | edge-rs/scripts/verify-supply-chain.py:1010-1017 | the hashing loop snapshots exactly the non-empty files within the size bound |
| SupplyBundle.RereadInventory | edge-rs/scripts/verify-supply-chain.py:1042-1065 | the verifier's re-reading of the checksum file computes its inventory and validity |
| SupplyBundle.VerifyBundle | edge-rs/scripts/verify-supply-chain.py:994-1071 | walk, snapshots and re-reading together yield each of the verifier's bundle checks |
| SupplyBundle.RereadExactly | edge-rs/scripts/verify-supply-chain.py:1042-1071 | over accepted lines the re-read inventory is the builder's if and only if every line is in the common form: misread paths never make up for each other |
| SupplyBundle.BuilderSatisfiesVerifier | edge-rs/scripts/verify-supply-chain.py:994-1071 | a bundle the builder accepts passes every tree check of the verifier; the inventory check passes if and only if every line is in the common form, the digest check if and only if the listed digests are true |
| SupplyBundle.EveryCheckPasses | edge-rs/scripts/verify-supply-chain.py:994-1071 | on a bundle the builder accepts all seven bundle checks pass if and only if every line is in the common form, the stated digests are true and the checksum file is not empty |
| SupplyBundle.OddLines | edge-rs/scripts/verify-supply-chain.py:1053-1058 | a tab-separated line pleases the builder only, and a name that starts with a star is read without it by the builder |
| CargoLock.ReadBlocks | edge-rs/scripts/verify-supply-chain.py:282-296 | the block loop computes the blocks between headers |
| CargoLock.BlocksRoundTrip | edge-rs/scripts/verify-supply-chain.py:282-296 | whatever precedes the first entry and follows each one, the written packages are read back in order if and only if no line after an entry sets a field of it otherwise |
| CargoLock.RegistryExactly | edge-rs/scripts/verify-supply-chain.py:297-301 | the package set is exactly name and version of the entries whose source is a registry |
| CargoLock.LockFileReads | edge-rs/scripts/verify-supply-chain.py:282-301 | from the text to the set, for every lock file: the set is that of its entries with later lines taken into account |
| CargoLock.LockFileExactly | edge-rs/scripts/verify-supply-chain.py:282-301 | a lock file whose later lines change no registry entry's name or version, nor which entries are of the registry, yields exactly its registry packages |
| CargoLock.HarmlessExactly | edge-rs/scripts/verify-supply-chain.py:282-301 | an entry is read right in every file among such entries if and only if it is such an entry |
| CargoLock.UnusedPatchOverwrites | edge-rs/scripts/verify-supply-chain.py:282-296 | a table of unused patches after the packages replaces name and version of the last one |
| JsonPointer.UnescapeInverts | control-go/scripts/validate-public-contracts.py:94-94 | the two-pass replacement inverts the escaping of section 3 of RFC 6901 on every string |
| JsonPointer.OtherOrderFails | control-go/scripts/validate-public-contracts.py:94-94 | the passes in the other order do not |
| JsonPointer.Resolve | control-go/scripts/validate-public-contracts.py:89-101 | the loop with its reassigned cursor computes the token walk, or an error |
| JsonPointer.RoundTrip | control-go/scripts/validate-public-contracts.py:89-101 | a printed non-empty path with non-empty keys resolves to exactly the subtree it names |
| JsonPointer.ResolvesWithoutEmptyKeys | control-go/scripts/validate-public-contracts.py:95-96 | on every document a printed path resolves as the path without its empty keys does, to the subtree there if there is one |
| JsonPointer.EmptyKeyFails | control-go/scripts/validate-public-contracts.py:95-96 | for a document with an empty key the round trip fails |
| JsonPointer.RoundTripExactly | control-go/scripts/validate-public-contracts.py:89-101 | a printed path comes back from every document that has it if and only if it is not empty and has no empty key |
| JsonPointer.WalksAgreeExactly | control-go/scripts/validate-public-contracts.py:89-101 | on every document the token walk is that of section 4 of RFC 6901 if and only if no token is empty or reads as an integer without being a proper index |
| JsonPointer.PointerExactly | control-go/scripts/validate-public-contracts.py:89-101 | a pointer is read as RFC 6901 reads it, on every document, if and only if it is not empty, every tilde in it begins an escape, and its tokens are such |
| JsonPointer.LooseTilde | control-go/scripts/validate-public-contracts.py:94-94 | "/~2" is an error by RFC 6901 and is read by the resolver |
| DbTrace.BuildDocument | db/scripts/build-traceability.py:33-103 | the builder fails exactly on a missing sidecar or scenario, otherwise writes a document with one entry per requirement and the exact artifacts |
| DbTrace.BuiltTells | db/scripts/build-traceability.py:42-103 | a written document has one entry per requirement in the manifest's order, whose k-th rows carry the command, schema and verdict of the k-th command's sidecar and the requirement's first scenario, and which passes exactly if all those sidecars do |
| DbTrace.LastBinding | db/scripts/build-traceability.py:32-40 | a command stands for its last binding |
| DbTrace.JoinedConcat | db/scripts/build-traceability.py:48-56 | the targets of a binding are joined by commas |
| DbTrace.CheckEntry | db/scripts/build-module-summary.py:394-411 | the list comparisons of one entry succeed exactly if row k names command k, its joined targets and its sidecar, and every row passed and is qualified |
| DbTrace.CoversOnce | db/scripts/build-module-summary.py:412-425 | the artifact dictionaries are equal exactly if the listed one holds the manifest and every sidecar with its digest and size, and nothing else |
| DbTrace.VerifyTraceability | db/scripts/build-module-summary.py:373-425 | the comparisons of lists and dictionaries accept exactly the documents that show every requirement's commands in order, each passed, with exactly the expected artifacts |
| DbTrace.BuiltIsAccepted | db/scripts/build-module-summary.py:373-425 | a built document is valid exactly if every referenced sidecar is PASS, and accepted exactly if every one is PASS and QUALIFIED |
| Sampler.Run | db/scripts/sample-resources.py:107-130 | the sampling loop, for any clock and failure pattern, is the specified loop and terminates |
| Sampler.Pacing | db/scripts/sample-resources.py:107-130 | attempt k starts no earlier than k intervals after the start, there are at most duration/interval + 1 attempts, and the bound fires only if 400 intervals fit |
| Sampler.TenSecondsNeverRaises | db/scripts/sample-resources.py:100-130 | at a 10 s interval the attempt bound never fires |
| Sampler.BoundExactly | db/scripts/sample-resources.py:125-126 | the bound can fire if and only if 400 intervals fit into the duration |
| Sampler.PhasesAdvance | db/scripts/sample-resources.py:51-56 | phase labels never step back as the offset grows |
| Sampler.PhaseLasts | db/scripts/sample-resources.py:51-56 | each of the first three phases is exactly its own stretch of one duration after the warm-up |

## Left out

- Stream, Mastership: the reader task's loop is modelled as steps on values so that it can interleave; `connect` is one read of the first answer, without TLS, dialling or deadlines other than giving up.
- Mastership.ActKeeps: the target's conduct is this project's reading of the specification; a target that deviates from it is not covered.
- Wal.DurableWal.Append: sequence numbers and sizes are unbounded integers, so the saturating 64-bit additions are not modelled; a write that fails half-way and the writer lock are not modelled either.
- Wal.DurableWal.Checkpoint: the cursor is promised to be the oldest unread time only while segment times are exact, because after a torn header marked an empty segment it is not.
- Wal.DurableWal.Open: the checkpoint file's own encoding and the directory listing are inputs.
- WalCodec.WalFramingLawful: the checksum is any function; detection of altered payloads by CRC-32C is not claimed.
- SessionIo.P4Session.Read: encoding of requests and deadlines beyond their error outcome are not modelled.
- Overlay.ReportExactly: gzip, tar decoding and diff-id hashing are inputs; links are not followed by the reference filesystem.
- Paths.SafeNamesExactly: names that are not valid Unicode are not modelled.
- Descriptors.InspectGraph: the runtime-config predicate after it is a single-record check and not modelled.
- SoakLease.CheckLeases, SoakTimeline.CheckTimeline: claim-scope, cleanup, resource-maxima and summary comparisons of the soak validators only add rejections and are not modelled; the control validator's request and rate checks likewise.
- Traceability.Validate: the evidence catalogue loop is an input; its failures only add rejections.
- EvidenceClosure.CloseEvidence: the release-manifest schema, its agreement with the OCI evidence and the archive's semantic checks are given predicates; they bind no file and only add rejections. The artifact index of the summary is not modelled.
- Completion.CompletionDeriver.Criterion: schema validation and the soak validator's verdict are given predicates; JSON numbers are integers.
- SupplyBundle.BuilderSatisfiesVerifier: the tree does not change between the two runs.
- DbTrace.BuildDocument: artifacts after the first are listed in an unspecified order; the source sorts them.
- JsonPointer.Resolve: integers are read as Python 3.12 reads them, with the decimal digits of Unicode 15.0; its limit of 4,300 digits is not modelled.
- Sampler.Run: what a sample measures is not modelled.
- `ensure_directory`, PEM reading, DNS and TLS set-up, JSON Schema validation, protobuf encoding and the Docker, cosign and git calls: library and process plumbing.
- The remaining `RuntimeLimits` checks, `endpoint.rs`, `digest.rs`, `error.rs`, fixtures and sentinel scans: each is settled by reading one branch.
