# Verified model of the telemetry application's cores

The application records the UDP telemetry of a racing game, stores it in `.f1pcap` captures,
compares laps, keeps live statistics and follows a career. This project models its stateful and
arithmetic cores in Dafny and proves what they promise.

| files | what they model |
|---|---|
| `Python`, `Reals`, `Sorting`, `FiniteSums` | the Python notions, real arithmetic, stable sorting and finite sums the rest shares |
| `Bytes`, `CaptureFormat`, `CaptureFile`, `PacketCapture`, `CaptureAdds`, `CaptureDamage` | the `.f1pcap` header and entries, whole files, the reader, the streaming generator, the in-memory capture object, filling it, and files cut short |
| `StreamingWriter`, `SessionMachine`, `SessionSafety`, `SessionHistory`, `SessionOutcomes`, `RecordingLimits`, `SessionRecorder` | the incremental capture writer, the session recorder as a step machine over producers and one worker, what its log tells, what becomes of every item, how its limits meet the reader's, and the recorder object method by method against it |
| `LapModels`, `BestLap`, `BestLapMeaning` | samples, traces, and the one-pass search for each driver's best recorded lap |
| `LapDedup`, `LapResample`, `LapSync`, `LapInterpolation`, `BrakingZones`, `BrakingMeaning`, `LapComparison`, `LapPhases`, `LapBalance` | distance-normalised lap comparison, from cleaning samples to the telescoping losses |
| `LapDelta`, `LapDeltaQueries`, `LapDeltaValues` | the live lap delta index under recording, rewrites and flashbacks, and what its queries answer after any run |
| `Welford`, `RunningStats`, `LatencyStats`, `FrameStats` | running mean, variance, percentiles, moving average, jitter, frame pacing and miss streaks |
| `Championship`, `Constructors`, `Career`, `CareerRecords`, `CareerStandings` | projected standings, and the career tables with event ingestion |
| `SessionCache`, `SessionListing` | rebuilding the session list through the cache keyed by modification time |
| `TrackModels`, `TrackBins`, `TrackDrawing`, `TrackMap` | binning, averaging, orienting and scaling the track map |
| `LapTimeText` | the lap-time printer and parser |

Where the source changes fields step by step there is a class or a method with loops, proved against
a specification function; the laws are then lemmas about that function, over all inputs or all runs.
Floats are real numbers, except the packet time stamp, which is an opaque 32-bit pattern. zlib is a
pair of functions with two explicit hypotheses, used only where a statement needs them: expanding
undoes compressing (`Lossless`), and a complete compressed stream is neither complete when cut nor
when extended (`SelfDelimiting`). `str.casefold` is a parameter, and so is what Python's `int` makes
of anything but plain digits.

## What the proofs show about the code

- The header constructor bounds version numbers from above only. A negative one is accepted and read
  back as something else; headers survive writing and reading exactly when nothing is negative and
  the count fits 32 bits.
- A loaded capture cannot be dumped before `set_compressed` is called (a `TypeError`), unless it
  announces no packets.
- Entries held in memory keep the byte order of the file they came from, while a dump announces the
  host's order. Such a dump is read back correctly exactly when every stored stamp and length reads
  the same in both orders; a capture that was streamed from disk is rewritten and does not suffer.
- A packet added to a capture that streams its source is never delivered, and the announced count
  becomes one: a dump then writes all of the source's packets under a header that announces one.
- A dump that fails has already emptied its target file, and may leave it with a header announcing
  all packets and only some of them.
- The recorder may be configured up to 8192 MiB a session and limits neither the payload size nor
  the number of packets, while the reader refuses files over 2 GiB, payloads over 64 KiB and more than
  two million packets. So a finalized capture loads exactly when it is within the reader's limits;
  the default session limit already has room for too many packets.
- A capture that was never closed announces no packets. It loads, but above 64 MiB it delivers none,
  and it cannot be dumped again.
- A flashback stores an untimed point. Until a rewrite passes it, lookups there answer zero; a lap's
  times ascend exactly when the calls that were not undone stored them in ascending order.
- Braking zones may overlap and leave stretches out, so the phase losses add up to the gap less what
  is lost outside all segments, plus what is lost where two overlap.
- Ingesting a career event fails exactly for an unknown career or a driver listed twice, and then
  leaves every table as it was.
- The docstring of `readFromFile` promises a `ValueError` when the header's count does not match the
  body; the code only warns. The model follows the code: loading succeeds, and the streamed packets
  equal the loaded ones exactly when the count is right.

## Model

| member | source | states |
|---|---|---|
| CaptureFormat.HeaderRoundTrip | lib/packet_cap.py:102-126 | A header the constructor accepts survives writing and reading if and only if no number is negative and the count fits its field |
| CaptureFormat.NegativeMajorMisread | lib/packet_cap.py:120-126 | Major version -1 is accepted and reads back as version 7 in the other byte order |
| CaptureFormat.HeaderBytesRoundTrip | lib/packet_cap.py:192-251 | Any 12 bytes accepted as a header are written back unchanged |
| CaptureFormat.HeaderBytes | lib/packet_cap.py:193-216 | The header byte by byte: magic, flag, version bits and the count, lowest byte first |
| CaptureFormat.EntryBytes | lib/packet_cap.py:260-297 | An entry byte by byte: stamp, then stored length, in its byte order, then the payload as stored |
| CaptureFormat.EntryRoundTrip | lib/packet_cap.py:284-329 | A written entry reads back in either byte order and mode when within the per-packet limits, and is refused otherwise |
| CaptureFile.EntriesRoundTrip | lib/packet_cap.py:487-526 | The read-to-end loop consumes every byte of any written packet list and returns exactly its packets, or refuses the file because one packet is over a limit |
| CaptureFile.DumpLoadRoundTrip | lib/packet_cap.py:403-533 | Dumping and loading gives back header and packets exactly when packets, totals and file size are within the reader's limits |
| CaptureFile.ForeignEntries | lib/packet_cap.py:277-329 | Entries written in the other byte order are read as the same packets if and only if every stamp and length is symmetric |
| CaptureFile.ForeignDumpLoad | lib/packet_cap.py:442-448 | The same for whole dumps whose header announces the host's order |
| CaptureFile.ForeignDumpMisread | lib/packet_cap.py:442-448 | One concrete dump whose stamp comes back changed |
| CaptureFile.DumpLoadCounted | lib/packet_cap.py:403-533 | The same under any announced count: all packets come back, with that count |
| CaptureFile.EncodeSucceeds | lib/packet_cap.py:284-297 | Writing entries fails exactly when a stored payload does not fit its length field |
| CaptureFile.StreamFileAgrees | lib/packet_cap.py:541-570 | A loadable file streamed from disk yields the loaded packets up to the announced count and fails after them if more were announced |
| PacketCapture.LoadedPackets | lib/packet_cap.py:541-570 | What a loaded capture delivers is the file's packets on both sides of the retention threshold, in full exactly when retained or correctly counted |
| PacketCapture.Redump | lib/packet_cap.py:374-465 | Load, choose a mode, dump: succeeds if and only if the payloads fit their length fields; loading that preserves the packets if and only if limits hold and the byte order agrees, was rewritten, or does not matter |
| PacketCapture.RedumpNeedsMode | lib/packet_cap.py:351-359 | A loaded capture without a chosen mode cannot be dumped |
| PacketCapture.AddDelivers | lib/packet_cap.py:382-392 | An added packet is delivered last unless the capture streams its source, and then never |
| PacketCapture.AddWhileStreaming | lib/packet_cap.py:382-392 | On a streaming capture adding resets the count to one, and a dump writes every source packet under it |
| CaptureAdds.AddsAnnounce | lib/packet_cap.py:382-392 | After any number of additions the announced count is the length of the whole history, and nothing else has changed |
| CaptureAdds.AddsDump | lib/packet_cap.py:382-465 | A new capture filled packet by packet announces and delivers exactly the packets; its dump succeeds exactly when all lengths and the count fit their fields, and loads back to the packets and their count exactly within the limits |
| CaptureAdds.ClearStartsAnew | lib/packet_cap.py:582-590 | A cleared capture dumps nothing, and filled again dumps what a new one would |
| CaptureAdds.AddsToLoaded | lib/packet_cap.py:382-465 | Packets added to a loaded capture in memory are announced, dumped and loaded back together with the loaded ones |
| CaptureDamage.CutFileLeaves | lib/packet_cap.py:498-535 | A file cut between entries loads to the entries before the cut; cut inside one it is refused, and the object keeps the whole entries read |
| CaptureDamage.PartUnreadable | lib/packet_cap.py:500-515 | No proper part of an entry is read as one |
| PacketCapture.ReadLoads | lib/packet_cap.py:467-535 | A read that succeeds leaves exactly the loaded packets in the object |
| PacketCapture.DumpLeaves | lib/packet_cap.py:450-458 | A successful dump is what the target file holds; a failed one has still replaced what it held |
| PacketCapture.F1PacketCapture.Create | lib/packet_cap.py:343-372 | The state of an empty capture with a chosen mode |
| PacketCapture.F1PacketCapture.ForFile | lib/packet_cap.py:343-362 | The state before a file is read: no mode |
| PacketCapture.F1PacketCapture.SetCompressed | lib/packet_cap.py:374-380 | Changes the announced mode and the helper, nothing else |
| PacketCapture.F1PacketCapture.Add | lib/packet_cap.py:382-392 | Appends in the host's byte order and counts the history |
| PacketCapture.F1PacketCapture.Clear | lib/packet_cap.py:582-590 | Forgets packets and source, keeps mode and header flags |
| PacketCapture.F1PacketCapture.ReadFromFile | lib/packet_cap.py:467-535 | The loop with its three size limits accepts exactly the files the specification accepts, and the object afterwards is specified for failed reads too |
| PacketCapture.F1PacketCapture.ReadEntries | lib/packet_cap.py:498-531 | The entry loop retains what it took or drops it for good, exactly by the 64 MiB threshold on all it took, also when it fails |
| PacketCapture.F1PacketCapture.GetPackets | lib/packet_cap.py:541-570 | Delivers the packets of the state, from memory or disk |
| PacketCapture.F1PacketCapture.StreamBody | lib/packet_cap.py:558-570 | The generator loop yields what the recursive specification yields and stops where it stops |
| PacketCapture.F1PacketCapture.GetFirstTimestamp | lib/packet_cap.py:572-580 | The stamp of the first packet delivered, None for none, or the stream's error |
| PacketCapture.F1PacketCapture.DumpToFile | lib/packet_cap.py:403-465 | Writes the specified bytes, or nothing for zero packets, and reports their counts; what the target file holds is specified for failures too |
| PacketCapture.F1PacketCapture.WriteEntries | lib/packet_cap.py:454-458 | The write loop produces the concatenated entries, or the first error and the entries before it |
| StreamingWriter.RunWellFormed | lib/dual_engineer/recorder.py:47-100 | At every point of any run the file is a 12-byte header followed by the accepted entries |
| StreamingWriter.WriteWellFormed | lib/dual_engineer/recorder.py:73-90 | An accepted write appends one entry, a rejected one changes nothing |
| StreamingWriter.WriteAccepts | lib/dual_engineer/recorder.py:73-90 | An open writer accepts a packet exactly when its length fits the field and its entry the limit; a refused one changes nothing |
| StreamingWriter.CloseWellFormed | lib/dual_engineer/recorder.py:92-100 | Closing only rewrites the count in place |
| StreamingWriter.RunWithinLimit | lib/dual_engineer/recorder.py:84-85 | Under one fixed limit of at least the header length the file never passes it |
| StreamingWriter.ClosedEqualsBatch | lib/dual_engineer/recorder.py:92-100 | A closed file is byte for byte the batch dump of the accepted packets, compressed and little-endian |
| StreamingWriter.ClosedLoads | lib/dual_engineer/recorder.py:44-100 | The reader returns exactly the accepted packets when they are within its limits |
| StreamingWriter.UnclosedLeaves | lib/dual_engineer/recorder.py:47-64 | An unclosed file loads to all accepted packets with count zero, delivers them only from memory, and is never dumped |
| StreamingWriter.OversizedPacketUnreadable | lib/dual_engineer/recorder.py:73-90 | The writer accepts a payload over 64 KiB that no reader accepts |
| StreamingWriter.StreamingPacketCaptureWriter.constructor | lib/dual_engineer/recorder.py:47-54 | Starts with a header counting zero packets |
| StreamingWriter.StreamingPacketCaptureWriter.Write | lib/dual_engineer/recorder.py:73-90 | Result, file and count follow the specification, and a file within the limit stays within it |
| StreamingWriter.StreamingPacketCaptureWriter.CloseFile | lib/dual_engineer/recorder.py:92-100 | Closing once gives the batch file, closing again does nothing |
| SessionSafety.RunSafe | lib/dual_engineer/recorder.py:205-295 | Over every interleaving sessions are well formed and of one uid, the queue is first-in first-out, and the stored packets and rows are the recorded ones in queue order |
| SessionSafety.HandleStores | lib/dual_engineer/recorder.py:205-263 | Handling one item adds to the stored packets and rows exactly that item if it was recorded |
| SessionSafety.ClosingSucceeds | lib/dual_engineer/recorder.py:338-347 | Within the session limit the packet count always fits the header, so finalizing never fails on it |
| SessionSafety.RawsConserved | lib/dual_engineer/recorder.py:154-162 | Every offered raw packet is queued, stored, counted as dropped, or was held by a failing worker |
| SessionSafety.RunNeverFails | lib/dual_engineer/recorder.py:205-230 | With packets whose compressed form fits the length field the worker never fails |
| SessionSafety.StopFinalizesAll | lib/dual_engineer/recorder.py:250-261 | Once stop is processed no session is open and all recorded packets and rows are in finalized sessions |
| SessionHistory.RunRecounts | lib/dual_engineer/recorder.py:205-295 | In every run the log of handled items chains the session changes each item asks for, and tells the finalized sessions in order, their reasons, and which updates every session and the pending slot hold |
| SessionHistory.RunCauses | lib/dual_engineer/recorder.py:247-295 | Every finalized session has its cause in the log: an item of another uid, stop, or a finalize item for its uid with its reason; its metadata is the waiting update and then those handled while it was open |
| SessionOutcomes.RunJudged | lib/dual_engineer/recorder.py:205-295 | In every run the outcome of every item is decided by the items before it and the storage check's answers: a sample is recorded exactly when allowed, a packet exactly when allowed, storable, and within the session limit on top of its own session's capture, or of a new one's header |
| SessionOutcomes.RunStoresAllowed | lib/dual_engineer/recorder.py:227-237 | In every run the stored rows are those of exactly the samples the storage check allowed, in queue order |
| SessionOutcomes.AlwaysAllowed | lib/dual_engineer/recorder.py:227-237 | While the storage check always allows, every sample taken off the queue is stored |
| SessionOutcomes.NeverAllowed | lib/dual_engineer/recorder.py:212-231 | While it never allows, nothing is stored |
| SessionOutcomes.NothingDropped | lib/dual_engineer/recorder.py:210-226 | While it always allows and all packets would fit one session, every packet taken off the queue is stored |
| SessionOutcomes.TurnHandles | lib/dual_engineer/recorder.py:205-263 | A turn takes the oldest item and logs its verdict; stop ends the worker with no session open, and only an unstorable packet crashes it |
| SessionOutcomes.WorkerLifecycle | lib/dual_engineer/recorder.py:148-203 | Starting only gives a working worker, a stopped one is given up, and without one nothing is handled |
| SessionOutcomes.OfferEnters | lib/dual_engineer/recorder.py:154-203 | In every run an offer enters the queue exactly when recording is on, there is room and a packet's uid is positive, control items when there is a worker; only lack of room is counted as a drop |
| SessionOutcomes.OffersConserved | lib/dual_engineer/recorder.py:154-237 | Every packet and sample offered past the guard is queued, stored, counted as dropped, or the packet that made the worker fail |
| RecordingLimits.TooManyPackets | lib/dual_engineer/recorder.py:218-226 | Any number of packets the session limit has room for is recorded in one session; above two million its capture cannot be loaded |
| RecordingLimits.DefaultLimitTooLarge | lib/config/schema/engineer.py:121-127 | The default limit has room for that many packets of up to a thousand compressed bytes |
| SessionSafety.FinishedSessionLoads | lib/dual_engineer/recorder.py:338-381 | Every finalized capture of any run loads back to exactly its packets, or is over the reader's limits |
| SessionRecorder.SessionRecorder.EnqueueRaw | lib/dual_engineer/recorder.py:154-162 | Guard, bounded queue and drop count |
| SessionRecorder.SessionRecorder.EnqueueSample | lib/dual_engineer/recorder.py:164-172 | The same for samples |
| SessionRecorder.SessionRecorder.UpdateMetadata | lib/dual_engineer/recorder.py:174-181 | The same for metadata, without a drop count |
| SessionRecorder.SessionRecorder.PutControl | lib/dual_engineer/recorder.py:183-203 | Finalize and stop enter the queue only with a worker task and room |
| SessionRecorder.SessionRecorder.HandleItem | lib/dual_engineer/recorder.py:205-263 | Each branch of the worker loop does what the step machine does |
| SessionRecorder.SessionRecorder.WorkerTurn | lib/dual_engineer/recorder.py:205-263 | One turn takes the oldest item and handles it |
| SessionRecorder.SessionRecorder.HandleRaw | lib/dual_engineer/recorder.py:210-226 | Budget check, session switch, limited write |
| SessionRecorder.SessionRecorder.HandleSample | lib/dual_engineer/recorder.py:227-237 | Budget check, session switch, row append |
| SessionRecorder.SessionRecorder.HandleMetadata | lib/dual_engineer/recorder.py:238-246 | Metadata goes to the open session of its uid or replaces the pending one |
| SessionRecorder.SessionRecorder.EnsureSession | lib/dual_engineer/recorder.py:265-295 | Keeps the open session of the uid, or finalizes and opens a new one with its pending metadata |
| SessionRecorder.SessionRecorder.FinalizeCurrent | lib/dual_engineer/recorder.py:338-381 | Closes the capture and moves the session to the finished ones |
| BestLap.RunsMaximal | lib/dual_engineer/recorder.py:560-570 | Cutting a driver's rows at lap changes gives maximal runs of equal lap number that concatenate to the rows |
| BestLap.MaximalRunsUnique | lib/dual_engineer/recorder.py:560-570 | There is only one such division |
| BestLap.BestOfEarliestLeast | lib/dual_engineer/recorder.py:557-558 | The strict comparison keeps the earliest of the runs with the least time key |
| BestLap.DriverBestMeaning | lib/dual_engineer/recorder.py:529-572 | A driver's best lap is the earliest least qualifying run of that division |
| BestLapMeaning.QualifyMeaning | lib/dual_engineer/recorder.py:540-556 | A stretch qualifies exactly on its length, coverage, flags and gaps; its trace holds its samples by distance and takes the rounded time of the last as total |
| BestLapMeaning.BestIsFastest | lib/dual_engineer/recorder.py:529-572 | A driver's best lap is a stretch that counts and that none beats by its rounded finishing time, the earliest among equals; there is none only if no stretch counts |
| BestLap.InterleavingIrrelevant | lib/dual_engineer/recorder.py:560-572 | The result depends only on each selected driver's own rows |
| BestLap.ExchangeKeepsRows | lib/dual_engineer/recorder.py:560-570 | Exchanging neighbouring rows of different drivers keeps every driver's rows in order |
| BestLap.AnyInterleaving | lib/dual_engineer/recorder.py:560-572 | After any such exchanges everyone's best lap is the same |
| BestLap.BestRecordedLaps | lib/dual_engineer/recorder.py:529-573 | The one-pass scan over all drivers returns exactly the selected drivers' best laps |
| BestLap.FinishAll | lib/dual_engineer/recorder.py:571-572 | Judging the runs still open completes every driver |
| BestLap.Finish | lib/dual_engineer/recorder.py:538-558 | One judged run improves its driver's entry only, and only if better |
| LapDedup.DeduplicateRepresents | lib/dual_engineer/analysis.py:100-106 | Deduplication keeps usable samples in strictly increasing distance and a latest representative of every usable sample |
| LapDedup.DeduplicateIdempotent | lib/dual_engineer/analysis.py:100-106 | Deduplicating again changes nothing |
| LapDedup.DeduplicateKeepsNear | lib/dual_engineer/analysis.py:100-106 | Every usable sample has a kept one within a millimetre that does not come before it |
| LapDedup.DeduplicateSpreads | lib/dual_engineer/analysis.py:100-106 | Of three kept samples in a row the outer two are at least a millimetre apart |
| LapDedup.DeduplicateSamples | lib/dual_engineer/analysis.py:100-106 | The dictionary pass equals collapsing neighbours with equal keys |
| LapResample.BracketUnique | lib/dual_engineer/analysis.py:138-140 | The search has exactly one place to stop |
| LapResample.CursorCarriesOn | lib/dual_engineer/analysis.py:136-140 | Carrying the cursor on finds the bracket of the larger distance |
| LapResample.BracketBrackets | lib/dual_engineer/analysis.py:138-141 | Inside the samples' span the chosen pair brackets the distance |
| LapResample.ReadTimeBetween | lib/dual_engineer/analysis.py:109-112 | A read time lies between its neighbours' times |
| LapResample.ReadTimeMonotone | lib/dual_engineer/analysis.py:109-112 | Read times do not decrease with distance when sample times do not |
| LapResample.ReadChannel | lib/dual_engineer/analysis.py:113-120 | A channel is read exactly when both neighbours have it, between their values |
| LapResample.ReadRearSlip | lib/dual_engineer/analysis.py:121-129 | Rear slip is read exactly when both neighbours have wheel data, between their mean magnitudes |
| LapResample.Resample | lib/dual_engineer/analysis.py:132-142 | One forward cursor reads every point of an ascending grid as an independent search would |
| LapResample.ReadGrid | lib/dual_engineer/analysis.py:137-141 | On any grid each point is read at the bracket of the largest distance so far |
| LapInterpolation.ReadInterpolates | lib/dual_engineer/analysis.py:109-129 | Between neighbouring samples the time, every channel both have and the rear slip are read off the line through them |
| LapInterpolation.ReadAtSample | lib/dual_engineer/analysis.py:109-142 | Read at a sample's own distance a lap gives that sample |
| LapSync.GridShape | lib/dual_engineer/analysis.py:157-160 | The grid runs from start to end in whole steps from the start, only the last gap being shorter |
| LapSync.SyncReads | lib/dual_engineer/analysis.py:145-164 | Synchronization succeeds exactly for comparable laps whose usable samples overlap by two steps, and reads both at every grid point |
| LapSync.SyncShape | lib/dual_engineer/analysis.py:163-174 | Distances run over the whole overlap, the first delta is zero and the others are measured from it |
| LapSync.SyncTimesAscend | lib/dual_engineer/analysis.py:161-174 | Synchronized times do not go back when the laps' times do not |
| LapSync.SyncSwap | lib/dual_engineer/analysis.py:145-174 | Swapping target and reference succeeds alike and negates every delta |
| LapInterpolation.SyncNeeds | lib/dual_engineer/analysis.py:145-157 | Two laps can be synchronized exactly when both are fair and their usable samples share two steps of track |
| LapInterpolation.SyncSteps | lib/dual_engineer/analysis.py:154-161 | The points lie a step apart from the later first sample to the earlier last one |
| LapInterpolation.SyncInterpolates | lib/dual_engineer/analysis.py:145-174 | Every point's times and channels lie on the lines through its neighbours on both laps; its delta is target less reference, counted from the first point |
| LapInterpolation.SyncAtSamples | lib/dual_engineer/analysis.py:145-174 | A point at a sample of either lap has that sample's time and channels |
| LapInterpolation.GapOfAlignedLaps | lib/dual_engineer/analysis.py:164-174 | Laps over the same stretch differ at its end by exactly the difference of their times over it |
| BrakingZones.ZonesCover | lib/dual_engineer/analysis.py:252-268 | Every point with reference brake of at least 0.12 lies in a zone |
| BrakingZones.ZonesChain | lib/dual_engineer/analysis.py:252-268 | Zones are non-empty, start strictly later each, and at most two points before the previous one ends |
| BrakingZones.SegmentsSpaced | lib/dual_engineer/analysis.py:252-274 | A segment ends before the next but one starts, so no step lies in three |
| BrakingZones.ZonesFound | lib/dual_engineer/analysis.py:269-270 | Zones exist exactly when the reference brakes somewhere |
| BrakingZones.SlowestMeaning | lib/dual_engineer/analysis.py:259-262 | The tracked minimum is the earliest slowest point of the zone so far |
| BrakingZones.FirstReleasedMeaning | lib/dual_engineer/analysis.py:263-266 | A zone ends at its first release and not before |
| BrakingMeaning.ZonesAre | lib/dual_engineer/analysis.py:248-270 | Every zone in the reference's channels: triggered by the first braking of 12 % since the last release, released off the brake and on the throttle past the slowest point, one point early and two late; no braking after the last |
| BrakingMeaning.ZonesUnique | lib/dual_engineer/analysis.py:248-270 | No other list of zones fits that description |
| BrakingMeaning.FallbackChunks | lib/dual_engineer/analysis.py:272-274 | Without braking the lap is cut into chunks of a tenth of its points, at least two steps each |
| BrakingZones.ChunksTile | lib/dual_engineer/analysis.py:272-274 | The fallback chunks tile the lap |
| BrakingZones.SegmentsNonEmpty | lib/dual_engineer/analysis.py:468-472 | However divided, no segment is empty |
| BrakingZones.ScanZones | lib/dual_engineer/analysis.py:248-268 | The state machine finds exactly the zones defined by first braking and first release |
| BrakingZones.DetectBrakingSegments | lib/dual_engineer/analysis.py:248-274 | Scan and fallback together give the specified segments |
| LapComparison.NearestMeaning | lib/dual_engineer/analysis.py:243-245 | The delta lookup takes the earliest of the nearest points |
| LapComparison.DeltaAtPoint | lib/dual_engineer/analysis.py:243-245 | At a point's own distance that is its own delta |
| LapComparison.SlowestSeenMeaning | lib/dual_engineer/analysis.py:343-346 | The apex is the earliest point of least known reference speed in the segment |
| LapComparison.PhasesInOrder | lib/dual_engineer/analysis.py:347-349 | The phase cuts lie in order inside the segment around the apex |
| LapComparison.SegmentTelescopes | lib/dual_engineer/analysis.py:350-353 | Entry, mid and exit loss sum to the delta at the segment's end minus that at its start |
| LapPhases.ApexIs | lib/dual_engineer/analysis.py:343-346 | The apex is the earliest point of least reference speed, or the middle when none is known |
| LapPhases.SegmentPhases | lib/dual_engineer/analysis.py:347-352 | Entry, middle and exit each lose the change of delta between their own points: the segment's ends and the earliest points nearest to 20 m before and after the apex, kept inside the segment |
| LapPhases.ComparisonPhases | lib/dual_engineer/analysis.py:478-482 | Each total is the change of delta over that phase of all segments |
| LapComparison.SegmentsKept | lib/dual_engineer/analysis.py:468-472 | The filter on empty segments drops none |
| LapComparison.ComparisonTelescopes | lib/dual_engineer/analysis.py:473-482 | The three totals sum to the change of delta across all segments |
| LapBalance.TotalsAndGap | lib/dual_engineer/analysis.py:473-482 | The three totals are the gap, less the change outside all segments, plus the change where two overlap |
| LapBalance.FallbackLosesGap | lib/dual_engineer/analysis.py:272-274 | Without reference braking all losses together are the representative gap |
| LapBalance.ComparisonRanks | lib/dual_engineer/analysis.py:484-484 | The reported segments are the analysed ones by falling sum of their three losses |
| LapBalance.AnalysisSucceeds | lib/dual_engineer/analysis.py:459-486 | Analysing two laps succeeds exactly when they can be synchronized |
| LapBalance.AnalysisBalances | lib/dual_engineer/analysis.py:459-486 | From the laps themselves: the losses balance with the deltas and, through uncovered and overlapped stretches, with the gap |
| LapBalance.GapAntisymmetric | lib/dual_engineer/analysis.py:473-479 | Comparing the other way round negates the gap |
| LapDeltaQueries.RunGood | lib/delta/manager.py:58-185 | In every reachable state each lap's distances strictly increase and the last recorded point ends its lap |
| LapDeltaQueries.RunStoresSurvivors | lib/delta/manager.py:58-185 | What is stored of a lap is exactly the points that no later call undid |
| LapDeltaQueries.TimeAtSpan | lib/delta/manager.py:200-204 | A lap answers exactly within its recorded span |
| LapDeltaQueries.TimeAtSample | lib/delta/manager.py:208-210 | The answer is exact at samples |
| LapDeltaQueries.TimeAtBetween | lib/delta/manager.py:212-229 | Elsewhere it lies between the neighbouring times, truncation included |
| LapDeltaQueries.TimeAtMonotone | lib/delta/manager.py:190-229 | It does not decrease with distance on a lap whose times do not |
| LapDeltaQueries.LapTimesAscend | lib/delta/manager.py:58-185 | A reachable lap's times do not go back exactly when the calls that were not undone stored them in ascending order |
| LapDeltaQueries.ReachableMonotone | lib/delta/manager.py:190-229 | Lookups on such a lap do not go back |
| LapDeltaQueries.FlashbackAnchor | lib/delta/manager.py:181-185 | One concrete run in which the untimed point of a flashback answers zero between later times |
| LapDeltaQueries.DeltaAnswers | lib/delta/manager.py:112-140 | In every reachable state a delta is given exactly when the best lap spans the current distance |
| LapDeltaQueries.DeltaOfSelf | lib/delta/manager.py:112-140 | In every reachable state a lap compared with itself gives zero |
| LapDeltaValues.RunRemembers | lib/delta/manager.py:58-110 | In every run a delta is about the point stored last and the best lap chosen last |
| LapDeltaValues.DeltaAtStored | lib/delta/manager.py:112-140 | Where a call that was not undone stored the best lap's time, the delta is the current time less it: positive when slower |
| LapDeltaValues.DeltaBetween | lib/delta/manager.py:112-229 | Between two neighbouring stored points the delta is the current time less the integer part of the time on the line through them, and lies between the differences to both |
| LapDeltaValues.TimeOnLine | lib/delta/manager.py:215-229 | Between samples the lookup is the affine value cut to an integer towards zero |
| LapDelta.LapDeltaManager.RecordDataPoint | lib/delta/manager.py:58-102 | Both lists keep the points short of the new one and gain it |
| LapDelta.LapDeltaManager.SetBestLap | lib/delta/manager.py:104-110 | Only the best lap number changes |
| LapDelta.LapDeltaManager.HandleFlashback | lib/delta/manager.py:142-185 | Later laps are forgotten, the lap is trimmed and gains an untimed point |
| LapDelta.LapDeltaManager.ForgetLater | lib/delta/manager.py:164-168 | Exactly the later laps go from both dictionaries |
| LapDelta.LapDeltaManager.GetDelta | lib/delta/manager.py:112-140 | The query returns the specified delta |
| LapDelta.LapDeltaManager.InterpolatedTimeForDistance | lib/delta/manager.py:190-229 | The bisecting lookup returns the specified time |
| Welford.MeanStep | lib/event_counter/latency.py:96-98 | One step of the running mean reaches the mean of the longer batch |
| Welford.SquaredDeviationStep | lib/event_counter/latency.py:97-100 | One Welford step adds exactly what the sum of squared deviations grows by |
| Welford.ObserveStep | lib/event_counter/frame_render.py:87-91 | Count, mean and m2 stay those of the batch |
| Welford.VarianceOf | lib/event_counter/latency.py:119-123 | m2 over count is the population variance, and never negative |
| LatencyStats.LatencyStep | lib/event_counter/latency.py:77-117 | All figures after a sample equal their definitions over all accepted samples |
| RunningStats.EwmaWithin | lib/event_counter/latency.py:113-117 | The moving average stays within the observed range |
| RunningStats.EwmaStep | lib/event_counter/latency.py:113-117 | The average starts at the first sample and keeps nine tenths of its distance to each new one |
| RunningStats.EwmaApproaches | lib/event_counter/latency.py:113-117 | Over k equal samples the distance to them shrinks by a tenth k times |
| RunningStats.JitterMeaning | lib/event_counter/latency.py:105-111 | Each jitter is the distance between consecutive samples |
| RunningStats.WindowMeaning | lib/event_counter/latency.py:102-103 | The window is the last 512 samples |
| RunningStats.AcceptedMeaning | lib/event_counter/latency.py:83-89 | Exactly the latencies that are not negative are accepted, in order |
| RunningStats.PercentilesOf | lib/event_counter/latency.py:138-146 | The percentiles are samples with p50 <= p95 <= p99, or zero without samples |
| RunningStats.PercentilesMeaning | lib/event_counter/latency.py:138-144 | With x the fraction of the last index, at most x samples are below the percentile and more than x not above it |
| FrameStats.FramesStep | lib/event_counter/frame_render.py:81-110 | All frame figures after an interval equal their definitions over all intervals |
| FrameStats.LongestStreakMeaning | lib/event_counter/frame_render.py:95-101 | The reported maximum is the length of the longest run of intervals over budget |
| FrameStats.TrailingMeaning | lib/event_counter/frame_render.py:95-101 | The current streak is the run of over-budget intervals at the end |
| FrameStats.IntervalsMeaning | lib/event_counter/frame_render.py:73-81 | There is one interval for each stamp later than a stamp that is not zero, in order, the time between the two |
| FrameStats.MissCountMeaning | lib/event_counter/frame_render.py:94-97 | The misses are the intervals over the budget, none without one |
| FrameStats.PacingMeaning | lib/event_counter/frame_render.py:103-110 | Each pacing error is an interval's distance from the budget |
| RunningStats.LeastMeaning | lib/event_counter/latency.py:92-92 | The running minimum is the least sample |
| RunningStats.GreatestMeaning | lib/event_counter/latency.py:93-93 | The running maximum is the greatest sample |
| LatencyStats.LatencyStat.ObservePacket | lib/event_counter/latency.py:77-117 | The tracker keeps all figures equal to their batch definitions and counts negative latencies apart |
| LatencyStats.LatencyStat.VarianceNow | lib/event_counter/latency.py:119-123 | Returns the population variance of the accepted samples |
| LatencyStats.LatencyStat.PercentilesNow | lib/event_counter/latency.py:138-146 | Percentiles of the last 512 accepted samples |
| FrameStats.FrameTimingStat.ObserveFrame | lib/event_counter/frame_render.py:66-110 | The tracker keeps all figures equal to their batch definitions over the counted intervals |
| FrameStats.FrameTimingStat.VarianceNow | lib/event_counter/frame_render.py:112-116 | Returns the population variance of the counted intervals |
| Championship.ProjectionConserves | lib/dual_engineer/championship.py:52-83 | With distinct drivers the total grows by exactly the points of the classified entries |
| Championship.ProjectionRanks | lib/dual_engineer/championship.py:72-83 | Ranks run 1..n over exactly the projected rows: most points first, then folded name, then id |
| Championship.ProjectionDrivers | lib/dual_engineer/championship.py:53-61 | The projection lists each driver of the table and each classified driver once |
| Championship.EarnedIsLast | lib/dual_engineer/championship.py:54-59 | A driver entered twice keeps what the last entry earns |
| Championship.PointsForMeaning | lib/dual_engineer/championship.py:17-22 | A position earns what its table says or nothing; the fastest lap adds the bonus down to the bonus position |
| Championship.BetterPositionEarnsMore | lib/dual_engineer/championship.py:17-22 | With a table that never rises a better position never earns less |
| Championship.ProjectionRow | lib/dual_engineer/championship.py:52-83 | A row's delta is what the driver's last entry earns, its points the earlier ones plus it, and name and team those of the table or of a classified entry |
| Constructors.TeamRows | lib/dual_engineer/championship.py:93-98 | A named team's row is its earlier points plus what all its classified cars earn; entries without a team count for none |
| Constructors.ConstructorsRanked | lib/dual_engineer/championship.py:99-99 | Constructors come most points first, then by folded name |
| Constructors.ProjectionsAgree | lib/dual_engineer/championship.py:52-99 | With a team for every entry both projections grow by the same amount |
| Championship.ProjectStandings | lib/dual_engineer/championship.py:44-83 | The loops over dictionary and classification compute the specified projection |
| Constructors.ProjectConstructorStandings | lib/dual_engineer/championship.py:86-99 | The loop computes the specified constructor projection |
| Career.RunGood | lib/dual_engineer/career.py:90-118 | In every reachable database event ids are distinct and every result's driver exists in its career |
| Career.ImportIsLast | lib/dual_engineer/career.py:217-234 | An imported driver is stored as the last row for it says, replacing name, team and starting points |
| Career.ImportOthers | lib/dual_engineer/career.py:217-234 | Drivers not imported stay as they are |
| CareerRecords.CreateStores | lib/dual_engineer/career.py:148-183 | A new career starts before its first round; an existing one stays |
| CareerRecords.ImportStores | lib/dual_engineer/career.py:203-246 | An import sets round and constructors' points, the last row of each counting, and leaves events and results |
| Career.IngestSucceeds | lib/dual_engineer/career.py:262-340 | Ingestion fails exactly for an unknown career or a driver listed twice |
| CareerRecords.IngestStoresResult | lib/dual_engineer/career.py:309-335 | Each listed result is stored column by column; points only for classified drivers of a race or sprint |
| CareerRecords.IngestStoresEvent | lib/dual_engineer/career.py:264-299 | The event is stored under its own or a new id, the round never falls, no other event or career changes |
| CareerRecords.IngestStoresDriver | lib/dual_engineer/career.py:300-308 | Listed drivers get the listed name and team; starting points and other drivers stay |
| CareerRecords.CorrectStores | lib/dual_engineer/career.py:343-367 | A correction sets exactly the named columns of one result and marks it manual, or fails |
| CareerStandings.IngestTwice | lib/dual_engineer/career.py:270-340 | Ingesting an event again leaves what the second call alone would have left, whatever the times of both calls and observations |
| CareerStandings.IngestAgain | lib/dual_engineer/career.py:248-341 | Calling twice with the same arguments equals calling once apart from time stamps, and returns the same event |
| CareerStandings.IngestPoints | lib/dual_engineer/career.py:300-335 | An ingestion sets its own event's points from its list and changes no other event's |
| CareerStandings.OrderIrrelevant | lib/dual_engineer/career.py:248-341 | Any number of different events may arrive in any order and at any times: everybody's points are the same |
| CareerStandings.IngestAllPoints | lib/dual_engineer/career.py:248-341 | An event ingested among others gives each driver what its own list says |
| CareerStandings.CorrectionMovesPoints | lib/dual_engineer/career.py:343-367 | A correction moves only its driver's points, by what it changed |
| CareerStandings.StandingsConserve | lib/dual_engineer/career.py:369-392 | Driver points total the starting points plus every stored result's points, each counted once |
| Career.CareerDatabase.ImportStandings | lib/dual_engineer/career.py:203-246 | Upserts drivers, bases and the round, or fails without a change |
| Career.CareerDatabase.IngestEvent | lib/dual_engineer/career.py:248-341 | One transaction: the specified tables, with the clock's time when no observation time is given, or no change |
| Career.CareerDatabase.CorrectResult | lib/dual_engineer/career.py:343-367 | Changes the named columns of one result and marks it manual, or fails without a change |
| SessionCache.ParseOneSound | apps/save_viewer/session_discovery.py:248-275 | Through a sound cache one file comes out as if parsed anew |
| SessionCache.ThroughSoundCache | apps/save_viewer/session_discovery.py:386-398 | A sound cache is invisible in the whole list |
| SessionCache.ParsesCommute | apps/save_viewer/session_discovery.py:388-393 | Two files parsed concurrently can finish in either order |
| SessionCache.AnyOrder | apps/save_viewer/session_discovery.py:388-393 | A whole batch can finish in any order: the cache ends up the same |
| SessionCache.OutcomeAnyOrder | apps/save_viewer/session_discovery.py:388-393 | What a file comes out as does not depend on what was parsed before it |
| SessionCache.YieldIsPrefix | apps/save_viewer/session_discovery.py:386-404 | The k-th yield is the snapshot of the first 50k files or of all |
| SessionCache.YieldCount | apps/save_viewer/session_discovery.py:386-386 | There are exactly as many yields as batches of fifty |
| SessionCache.LastYieldIsComplete | apps/save_viewer/session_discovery.py:386-404 | The last yield shows every file |
| SessionCache.RunSound | apps/save_viewer/session_discovery.py:248-275 | After any edits, cache losses and rebuilds the saved cache is sound |
| SessionCache.RebuildsMatch | apps/save_viewer/session_discovery.py:350-409 | Every rebuild of every run delivers the snapshots of an uncached one |
| SessionCache.SavedSound | apps/save_viewer/session_discovery.py:406-409 | The saved cache lists live paths only |
| SessionListing.PageNewestFirst | apps/save_viewer/session_discovery.py:340-347 | A page shows every entry once, the latest date first |
| SessionListing.PageLinks | apps/save_viewer/session_discovery.py:342-344 | A slug leads to a file exactly when an entry has it, the earliest such |
| SessionListing.NewestParsedFirst | apps/save_viewer/session_discovery.py:278-285 | Files are processed once each, the latest date first |
| SessionListing.SavedHits | apps/save_viewer/session_discovery.py:248-275 | After a rebuild the saved cache answers for every listed file that could be parsed |
| SessionListing.RebuildSkips | apps/save_viewer/session_discovery.py:353-409 | A rebuild right after one that could parse all files reads none of them |
| SessionCache.SessionList.ParseFile | apps/save_viewer/session_discovery.py:248-275 | A hit skips the parse, a failed parse is not remembered |
| SessionCache.SessionList.ParseBatches | apps/save_viewer/session_discovery.py:386-404 | The batch loop yields the snapshots of growing prefixes |
| SessionCache.SessionList.BuildSessionList | apps/save_viewer/session_discovery.py:350-409 | Through a sound cache file the pages are the uncached ones, and the saved cache is sound and live |
| TrackBins.AveragesComplete | lib/track_map_generator.py:183-204 | With every bin filled there is one point a bin, in bin order, the mean of its own samples |
| TrackBins.CountsAddUp | lib/track_map_generator.py:194-202 | The bin counts add up to all samples |
| TrackBins.BinMeaning | lib/track_map_generator.py:190-194 | Bins are equal stretches of the track; the last also takes everything beyond |
| TrackBins.CellMeaning | lib/track_map_generator.py:193-202 | A sample adds its position and one to its own bin only |
| TrackBins.MeanMeaning | lib/track_map_generator.py:204-204 | A bin's mean times its count is its sum, in both coordinates |
| TrackBins.BinAndAverage | lib/track_map_generator.py:183-204 | The dictionary accumulation gives the specified means |
| TrackBins.FilledBins | lib/track_map_generator.py:130-135 | The coverage set has exactly the filled bins |
| TrackDrawing.FlipTwice | lib/track_map_generator.py:228-233 | Mirroring twice gives the points back |
| TrackDrawing.OneScale | lib/track_map_generator.py:236-261 | One scale serves both axes |
| TrackDrawing.DrawingFills | lib/track_map_generator.py:243-256 | The drawing is centred and as large as fits |
| TrackDrawing.TurnTwice | lib/track_map_generator.py:207-225 | Turning keeps the centroid, and turning twice puts every point on its other side |
| TrackDrawing.InsideCanvas | lib/track_map_generator.py:236-261 | For any points the drawing stays inside the padded canvas |
| TrackDrawing.DrawnOrientation | lib/track_map_generator.py:161-164 | The drawing is the track to one scale with z to the right and x upwards |
| TrackDrawing.DrawnInside | lib/track_map_generator.py:161-164 | With the fixed canvas every drawn point lies within 40..960 by 40..560 |
| TrackMap.TrackMapCollector.SetTrack | lib/track_map_generator.py:65-72 | Another track or year starts anew, the same one changes nothing |
| TrackMap.TrackMapCollector.OnMotion | lib/track_map_generator.py:74-82 | Only the buffered positions change |
| TrackMap.TrackMapCollector.OnLapData | lib/track_map_generator.py:84-96 | The points gain the contributions of the cars both packets list, in order |
| TrackMap.TrackMapCollector.TryAddPoint | lib/track_map_generator.py:98-116 | A car contributes only on track, past the start, on a counted lap and with a real position |
| TrackMap.Contributes | lib/track_map_generator.py:98-116 | The exact condition on a car's data, and the sample it gives |
| TrackMap.TrackMapCollector.GenerateIfReady | lib/track_map_generator.py:118-176 | Generation happens once and exactly with full bin coverage, and draws the bin means |
| LapTimeText.ParsePrint | lib/f1_types/common.py:952-971 | Parsing undoes printing for every non-negative time |
| LapTimeText.PrintParse | lib/f1_types/common.py:1064-1076 | Printing undoes parsing on exactly the texts of the printer's own form |
| LapTimeText.ParseFields | lib/f1_types/common.py:1064-1076 | Three digit fields parse to the time that they name |
| LapTimeText.ParseMeaning | lib/f1_types/common.py:1064-1076 | A text parses exactly when three fields around one colon and one point are accepted as integers, to the time they name |

## Left out

- IEEE rounding: floats are real numbers, and a packet stamp is an opaque bit pattern.
- zlib: compression is a parameter; `CompressionHelper` objects are reduced to the mode they stand for.
- The file system, fsync, renames, SQLite and asyncio: files are byte strings, tables are maps, the queue is a sequence with atomic steps, and a write takes effect at once.
- PacketCapture.F1PacketCapture.DumpToFile: the progress callback and the default file name are not modelled, and the target is taken to be another file than the source.
- SessionSafety.RawsConserved: the storage check is a free yes or no at each turn, since free space and owned bytes depend on the disk; the failing-worker term is zero by `RunNeverFails`.
- SessionRecorder.SessionRecorder.FinalizeCurrent: the exports, the summary, the folder names, retention and the database rows written while finalizing are not modelled, and neither are exceptions raised among them.
- SessionRecorder.SessionRecorder.EnsureSession: metadata is the list of updates merged, in order, without the uid and start time that every session gets first.
- SessionRecorder.SessionRecorder.PutControl: a producer waiting for room is a step that does nothing; the futures awaited by finalize and stop are not modelled.
- BestLap.BestRecordedLaps: rows arrive as samples; reading the CSV columns, and the trace fields about compound, fuel, weather and damage, are not modelled.
- LapBalance.AnalysisBalances: diagnosis, confidence, evidence, reference quality, labels and the further measurements of a segment are not modelled; they are threshold ladders over the same points.
- LapDelta: `bisect_left` is replaced by the function it computes on an ascending list.
- FrameStats.FrameTimingStat.ObserveFrame: the frame budget is fixed for the life of the tracker.
- LatencyStats.LatencyStat.PercentilesNow: the ratios and averages reported beside the percentiles, and the standard deviation, are not modelled.
- Career.CareerDatabase.IngestEvent: a new event's id is one above the last; which unused number SQLite picks is not modelled. Folding the event type again when points are looked up is taken to change nothing.
- CareerStandings.StandingsConserve: the wins, podiums, poles and order of the driver standings, the constructor query and the head-to-head report are not modelled; the first are counts over the same join.
- SessionCache.RebuildsMatch: file names are well formed, files do not vanish during a rebuild, and a path's modification time determines its content; parsing and the entry's details are parameters.
- TrackDrawing.InsideCanvas: stated before the final rounding to three decimals; writing the SVG text, closing its loop and writing the JSON are not modelled.
- TrackDrawing.DrawnOrientation: the rotation is the exact quarter turn that the constant of 90 degrees stands for.
- LapTimeText.ParsePrint: `int` is used only on plain digits; what it makes of signs, spaces or underscores is a parameter.
- Packet structures and enums, overtake and collision counters, rate limiting, fuel and pit advice, the HUD, web servers, IPC and the launcher: not needed by any of the properties above.
- The theoretical lap and lap summaries: small reports over the same laps.
