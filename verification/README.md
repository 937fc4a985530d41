# Recording write path: a verified model

The recording service receives RTP packets from an SFU and turns them into segment files in object
storage, one series of segments per track. This project models the way of a packet from the server to the
stored object and back to a reader, the export parts into which a recording is cut, and the life of
recordings under the server and its manager; and it proves what these layers promise one another.
All statements are for every input, every run or every interleaving.

## Layers

| file | part of the service |
|---|---|
| `GoTypes.dfy`, `Keys.dfy` | Go's fixed-width integers and padded decimals; object keys |
| `Brtp.dfy`, `Reader.dfy` | the BRTP file format, and the reader that consumes it step by step |
| `RtpWriter.dfy` | the buffered packet writer, flushed at any moment |
| `Multipart.dfy` | the S3 stream writer over one multipart upload, and the byte counter in front of it |
| `TrackModel.dfy`, `TrackProofs.dfy` | a segmented track as a value, its operations and what holds over every run |
| `TrackLaws.dfy` | what a track's operations leave, field by field, how often age rotates it, what its headers say |
| `TrackWriter.dfy` | the same track as an object over the chain of writers below it, proved to do what the model does |
| `RoomModel.dfy`, `RoomProofs.dfy`, `RoomTheorems.dfy` | a room as atomic steps between lock acquisitions, its invariant and the main results |
| `RoomLaws.dfy` | what each step of a room leaves, what the statistics say, and that Stop can always finish |
| `RoomStore.dfy`, `Uploads.dfy`, `Snapshots.dfy` | what storage holds: the segment objects of a recording, the uploads they come from, and its metadata object |
| `Room.dfy` | the room as an object; every call is a run of those steps |
| `Parts.dfy`, `LiveRecorder.dfy` | cutting a recording into parts, at the end and live, and how the two interleave |
| `LiveCuts.dfy` | the live recorder's boundaries cutting the segments of the room |
| `Dispatch.dfy`, `ServerModel.dfy` | dispatcher, shutdown and recordings as one system of steps |
| `Manager.dfy`, `Server.dfy` | manager and server as objects, between two messages |

Clock readings, fresh identifiers, the answer of `FinalizeRecording` and whether a message could be sent
are parameters. A point in time is a number of nanoseconds; Go's zero time is `None`. Storage calls other
than finalising succeed.

Where the code does not meet a promise for every input, the exact condition is proved as an equivalence,
and a concrete input or run shows the failure:

| promise | exact condition | failing input |
|---|---|---|
| a file reads back | `Brtp.FileRoundTrip` | `Brtp.OversizeExample` |
| a track reads back from storage | `RoomStore.AddSafeIff`, `RoomStore.AddReadsBackIff`, `RoomStore.StoreSafeIff` | `RoomStore.ReAddedProducerLosesPackets` |
| object keys differ | `RoomTheorems.KeysDistinctIff` | `RoomTheorems.ReAddedProducerReusesKey` |
| segments follow one another | `TrackProofs.CutoffSafeIff`, `TrackProofs.LastSegmentOrdered` | `TrackProofs.FutureCutoffBreaksOrder`, `TrackProofs.EarlyCloseExample` |
| a boundary cuts every track where its part ends | `LiveCuts.BoundaryCutIff` | `LiveCuts.LateCutExample` |
| the final metadata stays | `Snapshots.FinalMetadataStaysIff`, `Snapshots.FinalStaysIff` | `Snapshots.SnapshotWinsExample`, `Snapshots.LateBeginExample` |
| parts tile a recording | `Parts.TilingIff` | `Parts.IndexOverflowExample`, `Parts.OffsetOverflowExample` |
| claimed and queued parts are the split | `LiveRecorder.SplitRestoredIff` | `LiveRecorder.OverlapBreaksSplit` |
| no part is exported twice | `LiveRecorder.ClaimSafeIff`, `LiveRecorder.NeverTwiceIff`, `LiveRecorder.ExportedTwiceIff` | `LiveRecorder.LateClaimExportsTwice` |
| a live session has its recording | `Dispatch.SessionBackedIff` | `Dispatch.ShutdownLeavesSession` |
| a room has one live recording | `Dispatch.StartSafeIff`, `Dispatch.OneRecordingPerRoom` | `Dispatch.RestartDuringShutdown` |

The documentation (docs/RECORDING-SERVICE.md:231) gives segment file names as peer, track type and
segment index. The code also puts the producer ID between type and index (internal/recording/room.go:225,
internal/recording/track.go:277); the model follows the code.

`dafny verify dfyconfig.toml` checks the whole project.

## Model

| member | source | states |
|---|---|---|
| GoTypes.PaddedRoundTrip | internal/recording/track.go:277 | a zero-padded decimal never loses its number, however many digits it has |
| Keys.SegmentKeyInjective | internal/storage/minio.go:240-242 | two segment keys of one recording are equal if and only if track ID and segment index are |
| Keys.FileNameInjective | internal/recording/track.go:277-278 | two segment file names are equal if and only if track ID and index are, also beyond six digits |
| Keys.KeyOfFile | internal/storage/minio.go:240-242 | the object key of a segment is the track folder of the recording followed by the file name that the metadata lists |
| Keys.KeyShape | internal/storage/minio.go:236-242 | a segment lies under rooms, room, recording and tracks, in a file named track ID, dash, index in at least six digits, and .rtp |
| Keys.RecordingsApart | internal/storage/minio.go:236-242 | objects of recordings with different room or recording IDs never share a key, as long as the IDs hold no slash |
| Keys.ProducersTellTracksApart | internal/recording/room.go:225 | with producer IDs of one length, different producers never get the same track ID |
| Keys.TrackIDsCollide | internal/recording/room.go:225 | without a fixed length they can: a concrete pair |
| Brtp.BigEndianRoundTrip | internal/rtp/writer.go:123-134 | a number that fits its field is read back from the big-endian bytes |
| Brtp.HeaderRoundTrip | internal/rtp/writer.go:145-171 | a written header is read back field for field, with whatever follows it untouched |
| Brtp.HeaderAccepted | internal/rtp/writer.go:242-258 | ReadHeader accepts exactly the byte sequences that begin with the encoding of a header with the right magic and version |
| Brtp.HeaderLayout | internal/rtp/writer.go:145-171 | where each header field lies, byte by byte: 4 bytes magic, version, payload type, 2 reserved, 4 of SSRC, 8 of codec, 8 of signed start time, 4 reserved, numbers most significant byte first |
| Brtp.RecordLayout | internal/rtp/writer.go:115-137 | a record is 8 bytes of signed timestamp, 2 of length modulo 65536, and the payload |
| Brtp.HeaderRefused | internal/rtp/writer.go:242-258 | the error for each kind of bad header: empty, short, wrong magic, wrong version |
| Brtp.EncodedSize | internal/rtp/writer.go:139-140 | the records of any packet list take ten bytes each plus the payload |
| Brtp.FileAppend | internal/rtp/writer.go:107-143 | writing one more packet appends its record, preceded by the header when it is the first |
| Brtp.RecordRead | internal/rtp/writer.go:261-278 | what ReadPacket returns for a written record, oversize packets included: the payload cut to the truncated length, the rest left in the stream |
| Brtp.FirstOversizeIsAltered | internal/rtp/writer.go:126 | the first packet that does not fit the length field is the first one read back wrong |
| Brtp.OversizeAltersFile | internal/rtp/writer.go:126 | a file with an oversize packet does not decode to its packets |
| Brtp.FileRoundTrip | internal/rtp/writer.go:107-143 | a file decodes to exactly the packets written if and only if each has at most 65535 bytes |
| Brtp.OversizeExample | internal/rtp/writer.go:126 | a concrete packet that is lost |
| Brtp.CutRecord | internal/rtp/writer.go:261-278 | reading a record that is cut short gives an error, never a packet |
| Brtp.PrefixSafety | internal/rtp/writer.go:242-278 | any cut of a file behind the header decodes to the packets whose records are whole, and then ends in an error or EOF |
| Brtp.TruncationNeverInvents | internal/rtp/writer.go:242-278 | so a truncated file decodes to a prefix of the written packets |
| BrtpReader.Reader.ReadFull | internal/rtp/writer.go:273-275 | takes n bytes, or says EOF on an empty stream and unexpected EOF on a short one |
| BrtpReader.Reader.ReadHeader | internal/rtp/writer.go:242-258 | the step-by-step reader computes what the decoding function says and consumes the same bytes |
| BrtpReader.Reader.ReadPacket | internal/rtp/writer.go:261-278 | the same for one record |
| BrtpReader.Reader.ReadFile | internal/rtp/writer.go:261-278 | calling ReadPacket until it fails yields the decoded packets and the error that ended the stream |
| RtpWriter.Writer.constructor | internal/rtp/writer.go:65-104 | a new writer has written nothing, not even the header |
| RtpWriter.Writer.WritePacket | internal/rtp/writer.go:107-143 | keeps: sink plus buffer are the file of the accepted packets, and the sink alone is the file of a prefix of them; a closed writer refuses |
| RtpWriter.Writer.Flush | internal/rtp/writer.go:174-193 | the sink becomes the whole file of the accepted packets; on a closed writer nothing more reaches it |
| RtpWriter.Writer.Close | internal/rtp/writer.go:220-232 | everything accepted is in the sink, and the writer is closed |
| RtpWriter.BufferedRecord | internal/rtp/writer.go:115-137 | appending a record, and the header before the first, to the buffer keeps sink plus buffer the file of the accepted packets |
| Multipart.S3StreamWriter.constructor | internal/storage/minio.go:261-284 | a new stream has an open upload without parts |
| Multipart.S3StreamWriter.Write | internal/storage/minio.go:286-307 | keeps: the uploaded parts followed by the buffer are all bytes written, part numbers are exactly 1..n in order, every uploaded part has at least 5 MiB; a closed stream refuses |
| Multipart.S3StreamWriter.UploadPart | internal/storage/minio.go:309-336 | the buffer becomes the next part; an empty one uploads nothing |
| Multipart.S3StreamWriter.Close | internal/storage/minio.go:339-384 | the object is the complete byte stream, or the upload is aborted exactly when no byte was written; the store has no reason to refuse the completion |
| Multipart.S3StreamWriter.PartCountBound | internal/storage/minio.go:301-305 | the number of parts is at most the bytes written divided by 5 MiB |
| Multipart.AssembleIgnoresNewer | internal/storage/minio.go:309-336 | a part under a new number does not change what the earlier parts concatenate to |
| Multipart.CountingWriteCloser.Write | internal/recording/track.go:251-255 | the counter equals the bytes that passed |
| Multipart.CountingWriteCloser.Bytes | internal/recording/track.go:261-263 | what a closed segment reports is the number of bytes that reached the stream writer |
| TrackProofs.RunConserves | internal/recording/track.go:106-131 | over every run of writes, age, size and external cuts and a close, the segments in order hold exactly the accepted packets |
| TrackProofs.ClosedIsFinal | internal/recording/track.go:110-112 | nothing changes a closed track |
| TrackProofs.ExactAccounting | internal/recording/track.go:333-341 | for a closed track: a segment has 0 bytes without packets, else 32 + 10 per packet + payload; segment packets add up to packetCount, segment bytes to totalBytes + 10 * packetCount + 32 per non-empty segment |
| TrackProofs.RotationPotential | internal/recording/track.go:265-273 | from any state on, size rotations are paid for by at most twice the bytes accepted meanwhile plus the bytes of the open segment |
| TrackProofs.RotationBound | internal/recording/track.go:265-273 | size rotations times segmentMaxBytes never exceed twice the bytes accepted, whatever age and external cuts are mixed in |
| TrackProofs.SegmentCountBound | internal/recording/track.go:275-311 | with size rotation only, the same for the number of segments minus one |
| TrackProofs.RotationBoundTight | internal/recording/track.go:265-273 | runs of every length that miss the bound by one segment: the factor two cannot be improved; for a limit of up to 65536 bytes every packet of them fits the length field |
| TrackProofs.FittingRotationBound | internal/recording/track.go:265-273 | the sharper bound for larger limits and packets that fit: size rotations times (segmentMaxBytes - 65535) never exceed the bytes accepted |
| TrackProofs.FittingBoundTight | internal/recording/track.go:265-273 | runs of every length, of packets that fit, that miss this bound by one segment |
| TrackProofs.SegmentFileBound | internal/recording/track.go:114-128 | a closed segment file has at most 32 + 10 * PacketCount + segmentMaxBytes - 1 bytes unless it has one packet |
| TrackProofs.AdmittedToYoungSegment | internal/recording/track.go:114-118 | after every accepted packet of every run the current segment is below segmentMaxBytes or holds only that packet, and was younger than segmentDuration at the clock reading that admitted it |
| TrackProofs.SegmentsOrdered | internal/recording/track.go:317-376 | with a clock that does not run backwards and cutoffs not in the future (or no size limit), start <= end <= next start for all segments but the last |
| TrackProofs.CutoffSafeIff | internal/recording/track.go:356-376 | segments stay ordered in every continuation after an external cut, if and only if the cutoff is not in the future or there is no size limit |
| TrackProofs.FutureCutoffBreaksOrder | internal/recording/track.go:364-375 | a concrete run with a cutoff in the future whose next rotation ends a segment before its start |
| TrackProofs.CutIsSeamless | internal/recording/track.go:356-376 | in every run an external cut ends one segment exactly where the next starts: at the cutoff, or at the start of the first when that is later |
| TrackProofs.LastSegmentOrdered | internal/recording/track.go:147-169 | in every run CloseAt leaves the last segment ordered if and only if its close time is not before the start |
| TrackProofs.EarlyCloseExample | internal/recording/track.go:147-169 | a concrete close whose event time lies before its segment: the segment ends before it starts |
| TrackProofs.EndToEnd | internal/recording/track.go:106-131 | for every run that closes the track, decoding the files of its segments in order, nothing for an aborted upload, gives the accepted packets, if and only if all of them fit the length field |
| TrackLaws.StartLaw | internal/recording/track.go:71-103 | a new track has one empty segment that starts with it, and no end |
| TrackLaws.WriteLaw | internal/recording/track.go:106-131 | a write to a reached open track counts the packet; it leaves the segment list alone and adds the packet to the last segment if and only if that is younger than segmentDuration and has room below segmentMaxBytes, a limit of zero or less being none; else the segment ends at one clock reading, the next starts at another and holds the packet |
| TrackLaws.CutLaw | internal/recording/track.go:356-376 | a cut ends the segment and starts the next at the cutoff, or now when there is none, but not before the segment started; nothing else changes |
| TrackLaws.CloseLaw | internal/recording/track.go:147-169 | a close ends the last segment and the track at the given time, or at two clock readings when there is none |
| TrackLaws.AgeRotationBound | internal/recording/track.go:265-273 | for every run with a clock that does not run backwards: the rotations by packets that the size limit did not ask for, times segmentDuration, never exceed the time elapsed; without an age limit there are none |
| TrackLaws.HeaderLaw | internal/recording/track.go:284-292 | the file of every segment with packets begins with a header that holds the SSRC and payload type of the track, its codec cut or filled with zeros to eight bytes, and the listed segment start in whole milliseconds |
| TrackProofs.ReadBackIffFits | internal/recording/track.go:317-346 | the same for any closed track |
| TrackWriters.TrackWriter.constructor | internal/recording/track.go:71-103 | the object starts as the model does, with its first segment open |
| TrackWriters.TrackWriter.StartNewSegment | internal/recording/track.go:275-311 | a fresh chain of writers under the next segment key, with a header for this track and start; counters reset, segment listed |
| TrackWriters.TrackWriter.CloseSegmentAt | internal/recording/track.go:317-346 | the segment is listed with end time, counted bytes and packets; its upload is archived as it was finished; without writers nothing happens |
| TrackWriters.TrackWriter.CloseChain | internal/recording/track.go:322-337 | closing RTP writer and segment writer leaves a complete upload of exactly the segment file, or an aborted one, and reports its size |
| TrackWriters.TrackWriter.FinishSegment | internal/recording/track.go:333-346 | end time, size and packet count are listed with the segment and the writers dropped |
| TrackWriters.TrackWriter.RotateSegment | internal/recording/track.go:348-353 | close then start, as in the model |
| TrackWriters.TrackWriter.WritePacket | internal/recording/track.go:106-131 | the object over its chain of writers, byte counter and uploads does what the model does, and outright what WriteLaw says; a closed track refuses |
| TrackWriters.TrackWriter.BackgroundFlush | internal/rtp/writer.go:195-210 | a flush at any moment between calls is invisible to the track |
| TrackWriters.TrackWriter.RotateAt | internal/recording/track.go:356-376 | as in the model, and outright: an open track is cut as CutLaw says; nothing on a closed track |
| TrackWriters.TrackWriter.CloseAt | internal/recording/track.go:147-169 | as in the model, and outright: an open track is closed as CloseLaw says; a second close changes nothing |
| TrackWriters.TrackWriter.StorageReadsBack | internal/recording/track.go:317-346 | the uploads of this track, read back segment by segment, are the accepted packets, if and only if all fit the length field |
| TrackWriters.TrackWriter.StorageHeaders | internal/recording/track.go:284-292 | every upload with packets begins with a header that names the stream of the track and the start listed for its segment |
| TrackWriters.ArchiveCloses | internal/recording/track.go:317-346 | closing a segment adds its file under its key to what storage holds, or an aborted upload when it had no packet |
| Rooms.FileBytes | internal/recording/room.go:514-518 | the nested loop of Stats adds up all segment bytes of all completed tracks |
| Rooms.RoomRecording.constructor | internal/recording/room.go:99-149 | a new recording records and has no tracks |
| Rooms.RoomRecording.AddTrack | internal/recording/room.go:216-283 | an error when not recording or the producer is there, nothing when the policy does not have the flag of the type set; else the producer gets a new writer whose track has just started, with the producer, peer, type, codec, SSRC and payload type of the call, the limits of the room, and an ID of peer, type name and producer |
| Rooms.RoomRecording.AddParticipant | internal/recording/room.go:381-385 | one more peer to count; nothing else changes |
| Rooms.RoomRecording.WritePacket | internal/recording/room.go:339-354 | the writer of the active producer takes the packet as WriteLaw says and the others are in the state they were in; silently nothing when not recording or unknown |
| Rooms.RoomRecording.RotateSegmentsAt | internal/recording/room.go:357-373 | every active track is cut, as CutLaw says, at one cutoff; no other track |
| Rooms.RoomRecording.RemoveTrack | internal/recording/room.go:286-336 | the track is closed, as CloseLaw says, listed once as completed and dropped, the others are in the state they were in; an unknown producer changes nothing |
| Rooms.RoomRecording.Stats | internal/recording/room.go:505-530 | payload bytes of active tracks plus file bytes of completed ones, and the counts |
| Rooms.RoomRecording.BuildMetadata | internal/recording/room.go:597-682 | each active track once, then the completed ones, with the totals of Stats |
| Rooms.RoomRecording.Stop | internal/recording/room.go:445-502 | a run of the model that closes every track, writes the metadata and ends Completed or Failed; an error and no change unless recording |
| RoomProofs.StepInv | internal/recording/room.go:216-502 | every atomic step, in every order, keeps the room invariant |
| RoomTheorems.ClosedTracksFrozen | internal/recording/room.go:339-373 | in every interleaving of look-ups, writes, cuts, removals and the phases of Stop, no packet enters a closed track and no segment is opened on it |
| RoomTheorems.PacketsConserved | internal/recording/room.go:339-354 | accepted packets = packets counted in active plus completed tracks, and each track holds its own packets in order |
| RoomTheorems.Lifecycle | internal/recording/room.go:445-502 | the status only moves Recording, Stopping, then Completed or Failed for good, and Stopping is never skipped; once Stop has closed the tracks, the active map stays empty, the completed list frozen and no packet is accepted |
| RoomTheorems.OnlyEnabledTypes | internal/recording/room.go:225-251 | in every run an audio, video or screenshare track is active or completed only if the policy has the flag of that type set, and one of unspecified type never |
| RoomTheorems.FinalMetadata | internal/recording/room.go:597-682 | the written metadata lists every recorded track once, with its identity, times and segments, every segment ended; TrackCount and TotalBytes agree with the list, and its packets are all the packets the room accepted |
| RoomTheorems.StatsNeverDrop | internal/recording/room.go:505-530 | TotalBytes, TrackCount and PeerCount never go backwards between two moments at which they can be read |
| RoomTheorems.KeysDistinctIff | internal/recording/track.go:277-278 | no two segments of a recording share an object key if and only if no two of its tracks share an ID |
| RoomTheorems.ReAddedProducerReusesKey | internal/recording/room.go:225-231 | a producer removed and added again does share one |
| RoomTheorems.FreshProducersGiveDistinctKeys | internal/recording/room.go:225-231 | with producer IDs of one length and none added twice, all object keys of every run differ |
| RoomLaws.AddLaw | internal/recording/room.go:216-283 | in every run an AddTrack makes its producer active with a new track of the given data, if and only if the room records, the producer is not active, the flag of the type is set and Stop is not closing tracks; otherwise it changes nothing |
| RoomLaws.LookUpLaw | internal/recording/room.go:339-350 | in every run a look-up finds the track of an active producer while the room records, and nothing else |
| RoomLaws.PacketLaw | internal/recording/room.go:350-353 | in every run and at whatever time, a packet that was looked up is accepted once, at the end of its own track, if that is still open, and else refused without a trace |
| RoomLaws.CutStepLaw | internal/recording/room.go:357-373 | in every run a collected cut that reaches an open track cuts it as CutLaw says |
| RoomLaws.RemoveLaw | internal/recording/room.go:286-336 | in every run RemoveTrack closes, lists and drops the track of an active producer, unless Stop is closing tracks, and changes nothing else |
| RoomLaws.StopCloseLaw | internal/recording/room.go:461-470 | in every run each round of the loop of Stop closes one track that is left, at clock readings of its own, and lists it |
| RoomLaws.StopCanFinish | internal/recording/room.go:445-502 | from any state after Stop was called its own steps lead to the end |
| RoomLaws.StatsLaw | internal/recording/room.go:505-530 | whenever statistics can be read, TrackCount is the number of tracks ever added, and TotalBytes the payload accepted for active tracks plus the sizes of the files of closed ones |
| RoomLaws.PeerLaw | internal/recording/room.go:376-391 | the peers that PeerCount counts are exactly those added, each once |
| RoomLaws.StoredHeaders | internal/recording/track.go:284-292 | in every run in which no track ID is used twice, the object behind each finished segment with packets begins with a header that names the stream of its track and the listed start |
| RoomStore.StoreSafeIff | internal/recording/room.go:225-283 | for every run: at each of its moments closed tracks read back as their own files however the recording goes on, if and only if no AddTrack of the run reused a track ID |
| RoomStore.AddSafeIff | internal/recording/room.go:225-231 | the exact guard on one AddTrack: after it a reader who follows the segment list of any closed track gets what the files of that track hold, in every continuation, if and only if the track ID is new in the recording |
| RoomStore.AddReadsBackIff | internal/recording/room.go:225-231 | the same in terms of packets, while all packets accepted so far fit: every closed track of fitting packets reads back as accepted in every continuation, if and only if the track ID is new |
| RoomStore.RoomEndToEnd | internal/recording/room.go:339-354 | in every run in which no track ID is used twice, the objects in storage under the names that a closed track lists decode to the packets the room accepted for it, if and only if these fit the length field |
| RoomStore.DistinctReadsBack | internal/recording/room.go:339-354 | the same under the condition on the end state that no two tracks share an ID |
| RoomStore.FreshIDsMeanDistinct | internal/recording/room.go:225-231 | a run keeps the guard if and only if at its end no two tracks share an ID |
| RoomStore.ReAddedProducerLosesPackets | internal/recording/room.go:225-231 | a concrete run: a producer is recorded, removed, added and recorded again; the first track reads back as the packet of the second |
| Uploads.UploadsFillStore | internal/storage/minio.go:339-384 | when a track moves on, its uploads grow by that of the finished segment, and this upload turns the bucket into what the store of the room says |
| Uploads.BucketIsStore | internal/storage/minio.go:339-384 | for every run, reused IDs or not: all uploads in the order in which they complete leave a bucket whose track folder is the store of the room, and each writer has archived exactly its own |
| Snapshots.FinalMetadataStaysIff | internal/recording/room.go:193-213 | when Stop comes to write its metadata, that document stays in storage in every continuation, if and only if no live snapshot is on its way and the goroutine of the live recorder has left |
| Snapshots.FinalStaysIff | internal/recording/room.go:193-213 | the same at every later moment at which that document is in storage: it stays in every continuation, if and only if the storage context is cancelled, or no snapshot is on its way and the goroutine has left |
| Snapshots.AfterFinish | internal/recording/room.go:486-495 | once finalising has worked, nothing changes the metadata object any more |
| Snapshots.SnapshotLists | internal/recording/room.go:597-682 | a live snapshot lists every track that was active when it began, with its identity, times and segments, then the completed ones, and the totals of that time |
| Snapshots.StopAchieves | internal/recording/room.go:474-495 | in every run, when Stop has its metadata the write succeeds and leaves it in storage as the completed document, and the finish cancels the storage context exactly when finalising worked |
| Snapshots.SnapshotWinsExample | internal/grpc/live_recorder.go:133 | a concrete run: a snapshot begun before Stop writes after it, and the object of a completed recording says that it is recording |
| Snapshots.LateBeginExample | internal/grpc/live_recorder.go:117-133 | a concrete run: no snapshot is on its way when Stop writes, the timer fires although the session is cancelled, and its snapshot replaces the final metadata |
| Parts.BuildParts | internal/grpc/handlers.go:447-479 | the loop, in Go integer widths: no part for a part length that is not positive, one for a recording without length; up to the int32 limit part i has the key prefix, i in at least four digits and .mp4, and a label that ends in i; without overflow the parts tile the recording |
| Parts.NamedApart | internal/grpc/handlers.go:468 | parts named after their positions have different keys |
| Parts.CountBounds | internal/grpc/handlers.go:452-455 | the part count is the length divided by the part length, rounded up |
| Parts.ExactPart | internal/grpc/handlers.go:461-477 | a part without overflow runs from its multiple of the part length to the next one or the end, with no rounding drift |
| Parts.Telescope | internal/grpc/handlers.go:461-477 | the durations of adjoining parts add up to where the last one ends |
| Parts.TilingIff | internal/grpc/handlers.go:447-479 | the parts tile [0, duration) to the millisecond if and only if their number fits int32 and their total length int64 |
| Parts.LongRecordingsTile | internal/grpc/handlers.go:447-479 | recordings of up to 2^31 - 1 seconds always tile, whatever the part length |
| Parts.IndexOverflowBreaksTiling | internal/grpc/handlers.go:467 | more parts than int32 counts leave an index that is not its position |
| Parts.IndexOverflowExample | internal/grpc/handlers.go:467 | a concrete length whose parts do not tile: one second more than int32 counts |
| Parts.OffsetOverflowBreaksTiling | internal/grpc/handlers.go:462-466 | an end offset beyond int64 ends the last part before it starts |
| Parts.OffsetOverflowExample | internal/grpc/handlers.go:462-466 | a concrete length and part length whose last end offset overflows |
| LiveRecorder.LivePartAgrees | internal/grpc/live_recorder.go:277-300 | a live part that ended within the recording is the part of the stop-time split, key and label included |
| LiveRecorder.LivePartsNamed | internal/grpc/live_recorder.go:277-300 | in every run the live parts are named after their positions under the quick-access prefix, so their keys differ |
| LiveRecorder.QuickAndLateApart | internal/grpc/handlers.go:435-442 | a quick-access part and a late-composite part of one recording never share a key |
| LiveRecorder.LiveSession.constructor | internal/grpc/live_recorder.go:55-67 | a new session is at index 1 with the part length of the policy, or does nothing when that is not positive |
| LiveRecorder.LiveSession.ProcessQuickAccessBoundary | internal/grpc/live_recorder.go:140-151 | appends the part of the current index and moves on: in the model, exactly a claim followed by the move to the next index |
| LiveRecorder.QueueFinalExports | internal/grpc/live_recorder.go:190-255 | queues the quick-access parts whose index is not claimed, in order, then every late-composite part; nothing without a compositer or for a recording without length |
| LiveRecorder.NextKeepsInv | internal/grpc/live_recorder.go:110-152 | every event of the timer goroutine and of the stop handler, in every order, keeps the claims in sequence |
| LiveRecorder.HorizonExact | internal/grpc/live_recorder.go:110-124 | that limit is exact: when the last part that fits int32 and int64 has been claimed, the timer fires again at once, whatever the clock says |
| LiveRecorder.HorizonReached | internal/grpc/live_recorder.go:110-124 | and for every part length a run gets there: at the limit, to the nanosecond, one part more is claimed than has ended |
| LiveRecorder.LivePartsAgree | internal/grpc/live_recorder.go:110-152 | in every run, until an integer overflows, the live parts are 1, 2, ... spanning [(k-1) * pd, k * pd), each equal to the final part k once the recording lasted that long |
| LiveRecorder.QueuedIsSuffix | internal/grpc/live_recorder.go:214-242 | in every interleaving the final pass queues exactly the parts behind the claimed ones |
| LiveRecorder.NothingMissed | internal/grpc/live_recorder.go:190-242 | in every interleaving each millisecond of the recording lies in a claimed or a queued part |
| LiveRecorder.FinalPassCovers | internal/grpc/live_recorder.go:190-242 | from every reached state in which the handler has cancelled, the final pass queues what covers, with the claimed parts, every millisecond of the measured length |
| LiveRecorder.CancelEnds | internal/grpc/live_recorder.go:110-122 | the handler measures the saturated time since the start; after a cancellation a waiting goroutine can leave, and then nothing is claimed any more |
| LiveRecorder.SplitRestoredIff | internal/grpc/live_recorder.go:190-242 | claimed parts followed by queued ones are the stop-time split, if and only if every claimed part ended within the measured length |
| LiveRecorder.ExportedTwiceIff | internal/grpc/live_recorder.go:214-242 | no index is both claimed and queued, if and only if the timer claimed nothing after the snapshot or nothing was left |
| LiveRecorder.ClaimSafeIff | internal/grpc/live_recorder.go:117-152 | a claim after the final pass exports no part twice, if and only if its index is beyond the final parts |
| LiveRecorder.NeverTwiceIff | internal/grpc/live_recorder.go:110-242 | for every run until an integer overflows: no part is ever exported twice, if and only if every claim after the final pass is of an index beyond the final parts |
| LiveRecorder.OverlapBreaksSplit | internal/grpc/handlers.go:149-217 | a concrete run: a boundary between measuring and stopping, and claimed plus queued parts are not the split |
| LiveRecorder.LateClaimExportsTwice | internal/grpc/live_recorder.go:214-242 | a concrete run: a boundary after the final pass, and one index is claimed and queued |
| LiveRecorder.QuietStopCompletesSplit | internal/grpc/handlers.go:149-217 | when no boundary is claimed while the stop handler works, claimed followed by queued parts are exactly the split |
| LiveCuts.LiveSegmentsOrdered | internal/grpc/live_recorder.go:110-132 | with the live recorder as the source of cutoffs, segments of every track in every run follow one another in order; no condition on cutoffs is left |
| LiveCuts.BoundaryCutIff | internal/recording/track.go:356-376 | for every run before and after: a track has a segment start at the boundary from the cut on, if and only if no rotation had started a later segment when the cut reached it, or one started just there; and then the segment before ends there |
| LiveCuts.BoundaryAchieves | internal/grpc/live_recorder.go:117-152 | in every run a due timer fires and collects a cut, and once that cut is done and its end has passed, the claim adds one part and leaves the recording as it was |
| LiveCuts.LateCutExample | internal/recording/track.go:364-369 | a concrete run: a packet starts a segment between the boundary and its cut, and the track has no segment start at the boundary |
| LiveCuts.CutsMatchParts | internal/grpc/live_recorder.go:128-152 | in every run, until an integer overflows, claimed part k ends, to the nanosecond, where boundary k cut the room; that boundary collected every active track, and a later action of the run applied RotateAt to each of them at that time |
| Dispatch.ReactKeeps | internal/grpc/server.go:173-203 | every event of the dispatcher and of a concurrent shutdown keeps the bookkeeping invariant |
| Dispatch.StopCalledOnce | internal/recording/manager.go:85-105 | over every interleaving each Stop is called at most once, and is uncalled exactly while the recording is in the map or in the hands of one party about to call it |
| Dispatch.StartAchieves | internal/recording/manager.go:49-82 | in every run a start request handled to the end enters a new recording, and a session if there is to be one, unless the room is there already |
| Dispatch.StopAchieves | internal/recording/manager.go:85-105 | in every run a stop request handled to the end takes the recording and the session out and calls its Stop exactly once |
| Dispatch.OthersAchieve | internal/grpc/server.go:173-203 | in every run Register connects, Disconnect lists every room in the map, Shutdown takes every recording and each of its calls stops one |
| Dispatch.SessionBackedIff | internal/grpc/live_recorder.go:69-92 | a live session runs for the recording in the map if and only if Shutdown did not take that recording |
| Dispatch.DisconnectEmpties | internal/grpc/server.go:206-238 | after a registered SFU disconnects, by the time the dispatcher is free again, the map is empty and so are the live sessions, save those of recordings Shutdown took; finalising may have failed |
| Dispatch.LoopRunsToEnd | internal/grpc/server.go:218-237 | no event takes the dispatcher out of that loop before the last listed room is done |
| Dispatch.StartSafeIff | internal/recording/manager.go:53-77 | a start that succeeds leaves at most one live recording of the room, if and only if Shutdown holds no unstopped recording of it |
| Dispatch.OneRecordingPerRoom | internal/recording/manager.go:53-77 | for every run: a room never has two live recordings at any moment, if and only if no start of it succeeds while Shutdown holds an unstopped one |
| Dispatch.ShutdownLeavesSession | internal/recording/manager.go:250-257 | a run in which Shutdown leaves a live session behind |
| Dispatch.RestartDuringShutdown | internal/recording/manager.go:250-272 | a run with two recordings of one room recording at once |
| ServerModel.ActKeeps | internal/recording/manager.go:49-105 | every action of the service, with recordings taking their own steps in between, keeps its invariant |
| ServerModel.DispatcherNeverStuck | internal/grpc/server.go:173-238 | from every reached state of the service, whatever is under way, some continuation brings the dispatcher back to the next message |
| ServerModel.BeginAchieves | internal/recording/manager.go:49-82 | in every run, with the dispatcher free and the room unknown, a start enters one new recording under the room, of status Recording and with the given policy |
| ServerModel.MapHoldsWhatRecords | internal/recording/manager.go:49-105 | every recording in the map has status Recording, and whatever records is in the map or about to be stopped |
| ServerModel.StopNeverRefused | internal/recording/room.go:445-454 | no caller of Stop ever gets the answer that the recording is not active |
| ServerModel.ReturnedStopIsComplete | internal/recording/manager.go:95-104 | when Stop returns to the dispatcher, every track is closed and the metadata lists each once and accounts for every packet ever accepted, whatever else was going on |
| ServerModel.ReturnedStopReadsBack | internal/recording/manager.go:95-104 | and, when no AddTrack reused a track ID, each listed track reads back from storage through its listed file names as the packets accepted for it, if and only if they fit |
| Managers.Manager.StartRecording | internal/recording/manager.go:49-82 | an error when the room is in the map or storage refuses; else one new recording, the others as they were |
| Managers.Manager.StopRecording | internal/recording/manager.go:85-105 | the room leaves the map even when finalising fails; its recording ran to the end; the others do not notice |
| Managers.Manager.WritePacket | internal/recording/manager.go:159-166 | dropped without an error when there is no recording; else written to that recording only |
| Managers.Manager.Shutdown | internal/recording/manager.go:250-272 | the map is empty, every recording ran to its end, and the result is an error exactly when one of them failed to finalise |
| Servers.Server.StartLiveRecorder | internal/grpc/live_recorder.go:28-77 | a new session in the initial state of the live recorder, with the part length of the policy, and an older one of the room cancelled; none without quick access or without a compositer |
| Servers.Server.StopLiveRecorder | internal/grpc/live_recorder.go:79-92 | the session leaves the map and is cancelled, with its claimed parts |
| Servers.Server.HandleStart | internal/grpc/handlers.go:54-132 | refused when recording is disabled, when the policy has an unknown value for who may record and the request is not from the system, or when starting fails; else recording and session start together, the session in its initial state for this recording, and every session stays backed by a recording |
| Servers.Server.ProcessBoundary | internal/grpc/live_recorder.go:128-188 | cuts every active track of the room at the end of the part, then claims the part and moves on |
| Servers.BuildRecordingParts | internal/grpc/handlers.go:422-445 | each list is empty exactly when the recording has no length, the policy does not ask for it or its part length is not positive; else named under its own prefix and label, and a tiling until an integer overflows |
| Servers.Server.HandleStop | internal/grpc/handlers.go:136-219 | statistics are taken first, then the session ends, then the recording. When that worked, the answer was sent and there is a compositer: late-composite parts tile the recording; quick-access parts do so without a session, and with one what is queued is what the final pass of the live recorder queues, so that every millisecond lies in a claimed or a queued part. Else nothing is queued |
| Servers.Server.HandleDisconnect | internal/grpc/server.go:206-238 | for a registered SFU every session is cancelled, every recording stopped and both maps empty, also when finalising fails; exactly the rooms that finalised are reported |

## Left out

- Storage failures other than a failed finalisation: a part whose upload fails after its buffer was cleared, a rotation that cannot open the next segment, a track whose close fails during Stop. The results are about runs in which those calls succeed.
- Partial writes and errors of the underlying writer in a flush, for the same reason.
- S3's limit of 10,000 parts for one upload.
- 64-bit overflow of the byte and packet counters and of the segment index; the export parts, where overflow is within reach, have Go's widths throughout.
- The timeline: its contents, its order, and the one event that Stop appends without the lock.
- Participants beyond the set of peers that Stats counts; active speaker and pause events.
- Names, codec strings and times that the metadata copies without computing on them; the metadata status string and the stopping user.
- The order of Go map iteration: loops over maps take any order.
- The first snapshot when a live recorder starts, and the notification at each boundary.
- Whether a claimed or queued part is rendered: the export call is skipped for a recording without tracks and may fail. "Claimed" and "queued" is what is modelled.
- LiveRecorder.NothingMissed: like every result about reached states in `LiveRecorder.dfy`, it is for runs that end before an int32 part index or an int64 offset overflows; `LiveRecorder.HorizonExact` and `LiveRecorder.HorizonReached` show that the timer misbehaves from that moment on. `LiveCuts.CutsMatchParts` has the same limit.
- LiveRecorder.QueuedIsSuffix: the same limit.
- LiveRecorder.SplitRestoredIff: the same limit.
- LiveRecorder.ExportedTwiceIff: the same limit; it reads its condition off the end state, `LiveRecorder.ClaimSafeIff` puts it on the event.
- LiveRecorder.QuietStopCompletesSplit: the same limit.
- LiveRecorder.LiveSession.ProcessQuickAccessBoundary: the part bookkeeping only; cutting the room is in `Servers.Server.ProcessBoundary`, the snapshot in `Snapshots.dfy`.
- Servers.Server.ProcessBoundary: the snapshot between cut and claim, which is in `Snapshots.dfy`, the export call and the notification.
- Servers.Server.StartLiveRecorder: the single snapshot of a policy with late composites only.
- Servers.Server.HandleStart: the contents of the response.
- Servers.Server.HandleStop: the contents of the response and the notification.
- Rooms.RoomRecording.AddParticipant: keeps the peer ID; display name, join time and timeline event are left out.
- Rooms.RoomRecording.Stats: the three counters only; status, duration and IDs of the record are left out.
- Rooms.RoomRecording.BuildMetadata: the track list and its totals only; participants, codec strings, times and status text are left out.
- RoomStore.RoomEndToEnd: one recording's folder of the bucket; that recordings do not meet in it is `Keys.RecordingsApart`, under IDs that are generated and not reused.
- RoomStore.AddReadsBackIff: for rooms whose packets fit so far; a track with an oversize packet never reads back as accepted, and `RoomStore.AddSafeIff` covers all rooms.
- Several SFU streams at once: the code allows a second stream, whose messages would be dispatched beside the first one's; the model has one dispatcher, and Shutdown beside it.
- The objects of `Room.dfy`, `Manager.dfy` and `Server.dfy` take one call at a time; interleavings are in `RoomModel.dfy`, `Dispatch.dfy` and `ServerModel.dfy`.
- TrackWriter.Flush on a track that is closed, which the code does not guard and nobody calls.
- The manager's forwarding of track, participant and speaker messages to the recording of the room, which is that of WritePacket again.
- gRPC, protobuf, the S3 client, the HTTP clients, configuration, logging, heartbeats and registration; RTP packets are opaque bytes.
- Multipart.MultipartUpload: stands for the object store; a finished upload is kept as a value (its key and final status) in a ghost log of the track writer, since the code keeps no reference to it.
- BrtpReader.Reader.ReadFile: the repository has no reader of whole files; this is the loop that its two read functions are for.
