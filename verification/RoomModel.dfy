/** A room recording as a system of atomic steps. Each step is one critical section of the code, so a
    packet write (look up, then write), an external cut (collect, then rotate one by one) and Stop (mark,
    lock, close one by one, unlock, snapshot, metadata, finish) can interleave in every way the locks allow. */
module RoomModel {
  import opened GoTypes
  import opened Brtp
  import opened TrackModel
  import Keys

  datatype Policy = Policy(recordAudio: bool, recordVideo: bool, recordScreenshare: bool)

  predicate ShouldRecord(p: Policy, t: TrackType) {
    match t
    case Audio => p.recordAudio
    case Video => p.recordVideo
    case Screenshare => p.recordScreenshare
    case Unspecified => false
  }

  datatype Status = Recording | Stopping | Completed | Failed

  /** A writer that has looked its track up and not written yet. */
  datatype PendingWrite = PendingWrite(handle: nat, packet: Packet)

  /** A cut that has collected its tracks and not rotated all of them yet. */
  datatype PendingCut = PendingCut(left: set<nat>, cutoff: Option<Time>)

  datatype Metadata = Metadata(tracks: seq<TrackInfo>, trackCount: int, peerCount: int, totalBytes: int)

  /** Where the one successful call of Stop stands. */
  datatype StopPhase =
    | Running
    | Marked
    | Closing(left: map<string, nat>) // Stop holds the room lock here
    | TracksClosed
    | Snapshotted(active: set<nat>, infos: seq<TrackInfo>)
    | Written(metadata: Metadata)
    | Finished(metadata: Metadata)

  datatype Room = Room(
    policy: Policy,
    segmentDuration: int,
    segmentMaxBytes: int,
    status: Status,
    heap: seq<Track>, // every TrackWriter ever created; a handle is an index
    tracks: map<string, nat>, // active tracks by producer
    completed: seq<TrackInfo>,
    completedOf: seq<nat>, // the handle behind each completed entry
    peers: set<string>,
    writes: seq<PendingWrite>,
    cuts: seq<PendingCut>,
    stop: StopPhase,
    accepted: seq<(nat, Packet)>, // every packet for which a write reported success
    store: map<string, Bytes>) // the objects under the recording's tracks/ prefix, by file name

  function NewRoom(policy: Policy, segmentDuration: int, segmentMaxBytes: int): Room {
    Room(policy, segmentDuration, segmentMaxBytes, Recording, [], map[], [], [], {}, [], [], Running, [], map[])
  }

  datatype Step =
    | AddTrack(producer: string, peer: string, codec: Bytes, ssrc: UInt32, payloadType: Byte, kind: TrackType, now: Time)
    | RemoveTrack(producer: string, end: Option<Time>, closeNow: Time, endNow: Time)
    | AddParticipant(peer: string)
    | LookUp(producer: string, packet: Packet)
    | Write(i: nat, clock: Reads)
    | Collect(cutoff: Option<Time>)
    | Rotate(i: nat, handle: nat, now: Time)
    | StopMark
    | StopLock
    | StopClose(producer: string, closeNow: Time, endNow: Time)
    | StopUnlock
    | StopSnapshot
    | StopMetadata
    | StopFinish(finalized: bool)

  // ---------------------------------------------------------------- statistics

  datatype Counter = Packets | Payload

  function CounterOf(c: Counter, t: Track): int {
    match c
    case Packets => t.packetCount
    case Payload => t.totalBytes
  }

  /** The sum of a counter over the tracks with handles in `live`. */
  function SumLive(heap: seq<Track>, live: set<nat>, c: Counter): int {
    if heap == [] then 0
    else
      var h := |heap| - 1;
      SumLive(heap[..h], live, c) + if h in live then CounterOf(c, heap[h]) else 0
  }

  /** Segment bytes and segment packets over completed tracks. */
  function CompletedBytes(infos: seq<TrackInfo>): int {
    if infos == [] then 0
    else CompletedBytes(infos[..|infos| - 1]) + SumBytes(infos[|infos| - 1].segments)
  }

  function CompletedPackets(infos: seq<TrackInfo>): int {
    if infos == [] then 0
    else CompletedPackets(infos[..|infos| - 1]) + SumPackets(infos[|infos| - 1].segments)
  }

  datatype Stats = Stats(trackCount: int, peerCount: int, totalBytes: int)

  /** Stats: payload bytes of active tracks plus file bytes of completed ones. */
  function StatsOf(r: Room): Stats {
    Stats(|r.tracks| + |r.completed|, |r.peers|,
          SumLive(r.heap, r.tracks.Values, Payload) + CompletedBytes(r.completed))
  }

  /** The infos of the tracks in `active`, by handle; the code's order is that of a Go map. */
  function ActiveInfos(heap: seq<Track>, active: set<nat>): seq<TrackInfo> {
    if heap == [] then []
    else
      var h := |heap| - 1;
      ActiveInfos(heap[..h], active) + if h in active then [heap[h].Info()] else []
  }

  // ---------------------------------------------------------------- steps

  function ConfigOf(r: Room, s: Step): TrackConfig
    requires s.AddTrack?
  {
    TrackConfig(Keys.TrackID(s.peer, TrackTypeName(s.kind), s.producer), s.producer, s.peer, s.kind,
                s.codec, s.ssrc, s.payloadType, r.segmentDuration, r.segmentMaxBytes)
  }

  predicate Unlocked(r: Room) {
    !r.stop.Closing?
  }

  ghost predicate WellFormed(r: Room) {
    && (forall h :: 0 <= h < |r.heap| ==> r.heap[h].Shaped())
    && (forall p :: p in r.tracks ==> r.tracks[p] < |r.heap|)
    && (forall i :: 0 <= i < |r.writes| ==> r.writes[i].handle < |r.heap|)
    && (forall i, h :: 0 <= i < |r.cuts| && h in r.cuts[i].left ==> h < |r.heap|)
    && (r.stop.Closing? ==> forall p :: p in r.stop.left ==> p in r.tracks && r.tracks[p] == r.stop.left[p])
  }

  /** From `t` to `t'` the current segment was finished: by a rotation or by the close of the track. */
  predicate Finishes(t: Track, t': Track) {
    !t.closed && (t'.closed || |t'.segments| > |t.segments|)
  }

  /** What storage holds when a track has moved on: the completed upload of a finished segment replaces
      whatever was stored under its key, and the upload of one without packets is aborted. */
  function AfterMove(store: map<string, Bytes>, t: Track, t': Track): map<string, Bytes>
    requires t.Shaped()
  {
    var last := |t.segments| - 1;
    if Finishes(t, t') && t.contents[last] != []
    then store[t.segments[last].fileName := SegmentFile(t, last)]
    else store
  }

  function CloseHandle(r: Room, h: nat, end: Option<Time>, closeNow: Time, endNow: Time): Room
    requires WellFormed(r) && h < |r.heap|
  {
    var t := CloseAt(r.heap[h], end, closeNow, endNow);
    r.(heap := r.heap[h := t], completed := r.completed + [t.Info()], completedOf := r.completedOf + [h],
       store := AfterMove(r.store, r.heap[h], t))
  }

  function DoAddTrack(r: Room, s: Step): Room
    requires s.AddTrack?
  {
    if !Unlocked(r) || !r.status.Recording? || s.producer in r.tracks || !ShouldRecord(r.policy, s.kind) then r
    else r.(heap := r.heap + [NewTrack(ConfigOf(r, s), s.now)], tracks := r.tracks[s.producer := |r.heap|])
  }

  function DoRemoveTrack(r: Room, producer: string, end: Option<Time>, closeNow: Time, endNow: Time): Room
    requires WellFormed(r)
  {
    if !Unlocked(r) || producer !in r.tracks then r
    else CloseHandle(r, r.tracks[producer], end, closeNow, endNow).(tracks := r.tracks - {producer})
  }

  /** The first half of a packet write: find the track, under the room's read lock. */
  function DoLookUp(r: Room, producer: string, packet: Packet): Room {
    if !Unlocked(r) || !r.status.Recording? || producer !in r.tracks then r
    else r.(writes := r.writes + [PendingWrite(r.tracks[producer], packet)])
  }

  /** The second half, under the track's own lock only. */
  function DoWrite(r: Room, i: nat, clock: Reads): Room
    requires WellFormed(r)
  {
    if i >= |r.writes| then r
    else
      var w := r.writes[i];
      var (t, ok) := WritePacket(r.heap[w.handle], w.packet, clock);
      r.(heap := r.heap[w.handle := t],
         writes := r.writes[..i] + r.writes[i + 1..],
         accepted := r.accepted + (if ok then [(w.handle, w.packet)] else []),
         store := AfterMove(r.store, r.heap[w.handle], t))
  }

  function DoCollect(r: Room, cutoff: Option<Time>): Room {
    if !Unlocked(r) then r else r.(cuts := r.cuts + [PendingCut(r.tracks.Values, cutoff)])
  }

  function DoRotate(r: Room, i: nat, h: nat, now: Time): Room
    requires WellFormed(r)
  {
    if i >= |r.cuts| || h !in r.cuts[i].left then r
    else
      var t := RotateAt(r.heap[h], r.cuts[i].cutoff, now);
      r.(heap := r.heap[h := t],
         cuts := r.cuts[i := r.cuts[i].(left := r.cuts[i].left - {h})],
         store := AfterMove(r.store, r.heap[h], t))
  }

  function DoStopMark(r: Room): Room {
    if !Unlocked(r) || !r.status.Recording? then r else r.(status := Stopping, stop := Marked)
  }

  function DoStopLock(r: Room): Room {
    if !r.stop.Marked? then r else r.(stop := Closing(r.tracks))
  }

  function DoStopClose(r: Room, producer: string, closeNow: Time, endNow: Time): Room
    requires WellFormed(r)
  {
    if !r.stop.Closing? || producer !in r.stop.left then r
    else CloseHandle(r, r.stop.left[producer], None, closeNow, endNow).(stop := Closing(r.stop.left - {producer}))
  }

  function DoStopUnlock(r: Room): Room {
    if !r.stop.Closing? || r.stop.left != map[] then r else r.(tracks := map[], stop := TracksClosed)
  }

  function DoStopSnapshot(r: Room): Room {
    if !r.stop.TracksClosed? then r else r.(stop := Snapshotted(r.tracks.Values, r.completed))
  }

  function DoStopMetadata(r: Room): Room {
    if !r.stop.Snapshotted? then r
    else
      var stats := StatsOf(r);
      r.(stop := Written(Metadata(ActiveInfos(r.heap, r.stop.active) + r.stop.infos,
                                  stats.trackCount, stats.peerCount, stats.totalBytes)))
  }

  function DoStopFinish(r: Room, finalized: bool): Room {
    if !r.stop.Written? then r
    else r.(status := if finalized then Completed else Failed, stop := Finished(r.stop.metadata))
  }

  /** The effect of one step; a step that the locks or the phase of Stop do not allow changes nothing.
      Every room that a run can reach is well-formed. */
  ghost function Do(r: Room, s: Step): Room {
    if !WellFormed(r) then r
    else
    match s
    case AddTrack(_, _, _, _, _, _, _) => DoAddTrack(r, s)
    case RemoveTrack(producer, end, closeNow, endNow) => DoRemoveTrack(r, producer, end, closeNow, endNow)
    case AddParticipant(peer) => if !Unlocked(r) then r else r.(peers := r.peers + {peer})
    case LookUp(producer, packet) => DoLookUp(r, producer, packet)
    case Write(i, clock) => DoWrite(r, i, clock)
    case Collect(cutoff) => DoCollect(r, cutoff)
    case Rotate(i, h, now) => DoRotate(r, i, h, now)
    case StopMark => DoStopMark(r)
    case StopLock => DoStopLock(r)
    case StopClose(producer, closeNow, endNow) => DoStopClose(r, producer, closeNow, endNow)
    case StopUnlock => DoStopUnlock(r)
    case StopSnapshot => DoStopSnapshot(r)
    case StopMetadata => DoStopMetadata(r)
    case StopFinish(finalized) => DoStopFinish(r, finalized)
  }

  /** The packets accepted for one track, in order. */
  function ForTrack(log: seq<(nat, Packet)>, h: nat): seq<Packet> {
    if log == [] then []
    else
      var last := log[|log| - 1];
      ForTrack(log[..|log| - 1], h) + if last.0 == h then [last.1] else []
  }

  // ---------------------------------------------------------------- invariant

  /** The tracks that still count as active: during Stop's loop, those not closed yet. */
  function Live(r: Room): map<string, nat> {
    if r.stop.Closing? then r.stop.left else r.tracks
  }

  predicate AllClosed(r: Room) {
    r.stop.TracksClosed? || r.stop.Snapshotted? || r.stop.Written? || r.stop.Finished?
  }

  ghost predicate HeapInv(r: Room) {
    forall h :: 0 <= h < |r.heap| ==> TrackInv(r.heap[h]) && ShouldRecord(r.policy, r.heap[h].cfg.trackType)
  }

  /** A track is open exactly when it is live, and then it is found under its own producer. */
  ghost predicate LiveInv(r: Room) {
    && (forall p :: p in Live(r) ==> Live(r)[p] < |r.heap| && r.heap[Live(r)[p]].cfg.producerID == p)
    && (forall h :: 0 <= h < |r.heap| ==>
          (!r.heap[h].closed <==> r.heap[h].cfg.producerID in Live(r) && Live(r)[r.heap[h].cfg.producerID] == h))
  }

  /** The completed list holds every closed track once, with its final data. */
  ghost predicate CompletedInv(r: Room) {
    && |r.completed| == |r.completedOf|
    && (forall i :: 0 <= i < |r.completedOf| ==>
          r.completedOf[i] < |r.heap| && r.heap[r.completedOf[i]].closed && r.completed[i] == r.heap[r.completedOf[i]].Info())
    && (forall i, j :: 0 <= i < j < |r.completedOf| ==> r.completedOf[i] != r.completedOf[j])
    && (forall h :: 0 <= h < |r.heap| && r.heap[h].closed ==> h in r.completedOf)
  }

  ghost predicate PhaseInv(r: Room) {
    && (r.status.Recording? <==> r.stop.Running?)
    && (r.status.Completed? || r.status.Failed? <==> r.stop.Finished?)
    && (AllClosed(r) ==> r.tracks == map[])
    && (r.stop.Snapshotted? ==> r.stop.active == {} && r.stop.infos == r.completed)
    && (r.stop.Written? || r.stop.Finished? ==>
          && r.stop.metadata.tracks == r.completed
          && r.stop.metadata.trackCount == |r.completed|
          && r.stop.metadata.totalBytes == CompletedBytes(r.completed))
  }

  ghost predicate LogInv(r: Room) {
    && (forall i :: 0 <= i < |r.accepted| ==> r.accepted[i].0 < |r.heap|)
    && (forall h :: 0 <= h < |r.heap| ==> Flatten(r.heap[h].contents) == ForTrack(r.accepted, h))
  }

  /** A counter summed over the open tracks. */
  function SumOpen(heap: seq<Track>, c: Counter): int {
    if heap == [] then 0
    else
      var h := |heap| - 1;
      SumOpen(heap[..h], c) + if heap[h].closed then 0 else CounterOf(c, heap[h])
  }

  ghost predicate CountInv(r: Room) {
    |r.accepted| == SumOpen(r.heap, Packets) + CompletedPackets(r.completed)
  }

  ghost predicate TracksCounted(r: Room) {
    |Live(r)| + |r.completed| == |r.heap|
  }

  ghost predicate RoomInv(r: Room): (inv: bool)
    ensures inv ==> WellFormed(r)
  {
    && WellFormed(r) && HeapInv(r) && LiveInv(r) && CompletedInv(r) && PhaseInv(r) && LogInv(r) && CountInv(r) && TracksCounted(r)
  }
}
