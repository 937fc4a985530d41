/** The uploads of the track writers, and the bucket they leave: what the room's store stands for. */
module Uploads {
  import opened GoTypes
  import opened Brtp
  import opened TrackModel
  import opened TrackProofs
  import opened TrackWriters
  import opened RoomModel
  import opened RoomProofs
  import opened RoomTheorems
  import opened RoomStore
  import Multipart
  import Keys

  // ---------------------------------------------------------------- one move

  /** A finished upload in the bucket. */
  function Put(bucket: map<string, Bytes>, record: UploadRecord): map<string, Bytes> {
    if record.status.Completed? then bucket[record.key := record.status.content] else bucket
  }

  function TrackFolder(place: Place): string {
    Keys.RecordingPrefix(place.roomID, place.recordingID) + "tracks/"
  }

  /** The bucket, seen from the recording's track folder, is the store. */
  ghost predicate SameBucket(place: Place, bucket: map<string, Bytes>, store: map<string, Bytes>) {
    forall f :: Lookup(bucket, TrackFolder(place) + f) == Lookup(store, f)
  }

  /** The uploads that a track writer has archived are what the store is made of: when a track moves on,
      its archive grows by the upload of the segment it finished, and that upload turns the bucket into
      what the room's store says. */
  lemma UploadsFillStore(place: Place, t: Track, t': Track, bucket: map<string, Bytes>, store: map<string, Bytes>)
    requires Moves(t, t') && SameBucket(place, bucket, store)
    ensures t.Shaped() && t'.Shaped() && 0 <= FinishedCount(t) <= |t.segments| && 0 <= FinishedCount(t') <= |t'.segments|
    ensures var uploads := if Finishes(t, t') then [RecordAt(place, t', FinishedCount(t))] else [];
            && Archive(place, t', FinishedCount(t')) == Archive(place, t, FinishedCount(t)) + uploads
            && SameBucket(place, if uploads == [] then bucket else Put(bucket, uploads[0]), AfterMove(store, t, t'))
  {
    hide TrackInv, KeyAt, SegmentFile, NameOf, TrackFolder, Keys.SegmentFileName, AfterMove;
    var n := FinishedCount(t);
    SavesFinished(store, t, t');
    SameArchive(place, t, t', n);
    if Finishes(t, t') {
      Keys.KeyOfFile(place.roomID, place.recordingID, t'.cfg.trackID, n + 1);
      UploadOf(place, t', n);
      if StoredObject(t', n).Some? {
        PutKeepsBucket(place, bucket, store, NameOf(t', n), StoredObject(t', n).value);
      }
    }
  }

  lemma {:induction false} SameArchive(place: Place, t: Track, t': Track, k: nat)
    requires Moves(t, t') && k <= FinishedCount(t) <= FinishedCount(t')
    ensures t.Shaped() && t'.Shaped() && k <= |t.segments| && k <= |t'.segments|
    ensures Archive(place, t', k) == Archive(place, t, k)
  {
    hide TrackInv, KeyAt, FileOf, HeaderAt;
    if k > 0 {
      SameArchive(place, t, t', k - 1);
      assert StoredObject(t', k - 1) == StoredObject(t, k - 1);
      EmptyFiles(t, k - 1);
      EmptyFiles(t', k - 1);
    }
  }

  lemma EmptyFiles(t: Track, i: nat)
    requires t.Shaped() && i < |t.segments|
    ensures StoredObject(t, i) == if SegmentFile(t, i) == [] then None else Some(SegmentFile(t, i))
  {
    hide HeaderAt, FileOf;
    FileSize(HeaderAt(t.cfg, t.segments[i].startTime), t.contents[i]);
  }

  lemma UploadOf(place: Place, t: Track, i: nat)
    requires t.Shaped() && i < |t.segments|
    ensures var u := RecordAt(place, t, i);
            && u.key == TrackFolder(place) + NameOf(t, i)
            && u.status == if StoredObject(t, i).Some? then Multipart.Completed(StoredObject(t, i).value) else Multipart.Aborted
  {
    hide SegmentFile, Keys.SegmentFileName, Keys.SegmentKey;
    EmptyFiles(t, i);
    Keys.KeyOfFile(place.roomID, place.recordingID, t.cfg.trackID, i + 1);
  }

  lemma PutKeepsBucket(place: Place, bucket: map<string, Bytes>, store: map<string, Bytes>, f: string, file: Bytes)
    requires SameBucket(place, bucket, store)
    ensures SameBucket(place, bucket[TrackFolder(place) + f := file], store[f := file])
  {
    hide TrackFolder;
    forall g ensures Lookup(bucket[TrackFolder(place) + f := file], TrackFolder(place) + g) == Lookup(store[f := file], g) {
      if TrackFolder(place) + g == TrackFolder(place) + f {
        Keys.CancelPrefix(TrackFolder(place), g, f);
      }
    }
  }

  // ---------------------------------------------------------------- the uploads of a whole run

  /** The upload that a step completes or aborts, with the track it belongs to. */
  ghost function Uploaded(place: Place, r: Room, s: Step): seq<(nat, UploadRecord)> {
    match Touched(r, s)
    case None => []
    case Some(h) => if h < |r.heap| && h < |Do(r, s).heap| then Finished(place, h, r.heap[h], Do(r, s).heap[h]) else []
  }

  ghost function Finished(place: Place, h: nat, t: Track, t': Track): seq<(nat, UploadRecord)> {
    if t'.Shaped() && Finishes(t, t') && 0 <= FinishedCount(t) < |t'.segments|
    then [(h, RecordAt(place, t', FinishedCount(t)))]
    else []
  }

  /** All of them, in the order in which they happen. */
  ghost function UploadLog(place: Place, r: Room, steps: seq<Step>): seq<(nat, UploadRecord)>
    decreases |steps|
  {
    if steps == [] then [] else Uploaded(place, r, steps[0]) + UploadLog(place, Do(r, steps[0]), steps[1..])
  }

  /** The bucket after them. */
  function PutAll(bucket: map<string, Bytes>, log: seq<(nat, UploadRecord)>): map<string, Bytes>
    decreases |log|
  {
    if log == [] then bucket else PutAll(Put(bucket, log[0].1), log[1..])
  }

  /** Those of one track. */
  function OfTrack(log: seq<(nat, UploadRecord)>, h: nat): seq<UploadRecord> {
    if log == [] then [] else (if log[0].0 == h then [log[0].1] else []) + OfTrack(log[1..], h)
  }

  /** What the writer of track `h` has archived. */
  ghost function ArchiveOf(place: Place, r: Room, h: nat): seq<UploadRecord> {
    if h < |r.heap| && r.heap[h].Shaped() && 0 <= FinishedCount(r.heap[h]) <= |r.heap[h].segments|
    then Archive(place, r.heap[h], FinishedCount(r.heap[h])) else []
  }

  lemma AtMostOneUpload(place: Place, r: Room, s: Step, rest: seq<(nat, UploadRecord)>, bucket: map<string, Bytes>, h: nat)
    ensures var log := Uploaded(place, r, s);
            && |log| <= 1
            && PutAll(bucket, log + rest) == PutAll(if log == [] then bucket else Put(bucket, log[0].1), rest)
            && OfTrack(log + rest, h) == (if log != [] && log[0].0 == h then [log[0].1] else []) + OfTrack(rest, h)
  {
    hide Touched, Finishes, RecordAt, Do, Put;
    var log := Uploaded(place, r, s);
    if log == [] {
      assert log + rest == rest;
    } else {
      assert (log + rest)[1..] == rest;
    }
  }

  /** What one step does to bucket and archives. */
  lemma StepUploads(place: Place, r: Room, s: Step, bucket: map<string, Bytes>, h: nat)
    requires RoomInv(r) && SameBucket(place, bucket, r.store)
    ensures var (r', log) := (Do(r, s), Uploaded(place, r, s));
            && |log| <= 1
            && SameBucket(place, if log == [] then bucket else Put(bucket, log[0].1), r'.store)
            && ArchiveOf(place, r', h) == ArchiveOf(place, r, h) + (if log != [] && log[0].0 == h then [log[0].1] else [])
  {
    hide RoomInv, Do, Adds, Moves, RecordAt, SameBucket, Finishes, AfterMove, NewTrack, TrackInv, StoredObject, FinishedCount;
    if Adds(r, s) {
      AddsTouchesNone(r, s);
      AddedRoom(r, s);
      NewArchive(place, ConfigOf(r, s), s.now);
    } else {
      StepMoves(r, s);
      if Touched(r, s).Some? {
        var k := Touched(r, s).value;
        UploadsFillStore(place, r.heap[k], Do(r, s).heap[k], bucket, r.store);
        FinishesCounts(r.heap[k], Do(r, s).heap[k]);
      }
    }
  }

  lemma AddsTouchesNone(r: Room, s: Step)
    requires Adds(r, s)
    ensures s.AddTrack? && Touched(r, s) == None
  {
  }

  lemma NewArchive(place: Place, cfg: TrackConfig, now: Time)
    ensures var t := NewTrack(cfg, now); t.Shaped() && FinishedCount(t) == 0 && Archive(place, t, 0) == []
  {
  }

  lemma FinishesCounts(t: Track, t': Track)
    requires Moves(t, t')
    ensures t'.Shaped() && (Finishes(t, t') ==> 0 <= FinishedCount(t) < |t'.segments|)
  {
    hide StoredObject;
  }

  lemma {:induction false} RunUploads(place: Place, r: Room, steps: seq<Step>, bucket: map<string, Bytes>, h: nat)
    requires RoomInv(r) && SameBucket(place, bucket, r.store)
    ensures var (r', log) := (RunRoom(r, steps), UploadLog(place, r, steps));
            && SameBucket(place, PutAll(bucket, log), r'.store)
            && ArchiveOf(place, r', h) == ArchiveOf(place, r, h) + OfTrack(log, h)
    decreases |steps|
  {
    hide RoomInv, Do, Uploaded, SameBucket, ArchiveOf, Put;
    if steps != [] {
      var log, r1 := Uploaded(place, r, steps[0]), Do(r, steps[0]);
      StepInv(r, steps[0]);
      StepUploads(place, r, steps[0], bucket, h);
      AtMostOneUpload(place, r, steps[0], UploadLog(place, r1, steps[1..]), bucket, h);
      RunUploads(place, r1, steps[1..], if log == [] then bucket else Put(bucket, log[0].1), h);
    }
  }

  /** For every run, reused IDs or not: the uploads of all writers, in the order in which they complete, leave
      a bucket whose track folder is the room's store, and each writer has archived exactly its own. */
  lemma BucketIsStore(place: Place, policy: Policy, segmentDuration: int, segmentMaxBytes: int, steps: seq<Step>, h: nat)
    ensures var r := ReachedRoom(policy, segmentDuration, segmentMaxBytes, steps);
            var log := UploadLog(place, NewRoom(policy, segmentDuration, segmentMaxBytes), steps);
            && SameBucket(place, PutAll(map[], log), r.store)
            && ArchiveOf(place, r, h) == OfTrack(log, h)
  {
    hide RoomInv, RunRoom, UploadLog, PutAll, OfTrack;
    var r0 := NewRoom(policy, segmentDuration, segmentMaxBytes);
    NewRoomInv(policy, segmentDuration, segmentMaxBytes);
    assert SameBucket(place, map[], r0.store);
    RunUploads(place, r0, steps, map[], h);
    assert ArchiveOf(place, r0, h) == [];
    assert [] + OfTrack(UploadLog(place, r0, steps), h) == OfTrack(UploadLog(place, r0, steps), h);
  }
}
