/** The main results about rooms: for every run, whatever the interleaving. */
module RoomTheorems {
  import opened GoTypes
  import opened Brtp
  import opened TrackModel
  import opened TrackProofs
  import opened TrackLaws
  import opened RoomModel
  import opened RoomProofs
  import Keys

  // ---------------------------------------------------------------- closed tracks

  ghost predicate Extends(r: Room, r': Room) {
    && |r.heap| <= |r'.heap|
    && forall h :: 0 <= h < |r.heap| ==>
         r'.heap[h].cfg == r.heap[h].cfg && (r.heap[h].closed ==> r'.heap[h] == r.heap[h])
  }

  lemma TouchExtends(r: Room, r': Room, h: nat, t: Track)
    requires h < |r.heap| && r'.heap == r.heap[h := t]
    requires t.cfg == r.heap[h].cfg && (r.heap[h].closed ==> t == r.heap[h])
    ensures Extends(r, r')
  {
  }

  lemma StepExtends(r: Room, s: Step)
    requires RoomInv(r)
    ensures Extends(r, Do(r, s))
  {
    hide HeapInv, LiveInv, CompletedInv, LogInv, CountInv, PhaseInv, TracksCounted,
         TrackInv, WritePacket, TrackModel.RotateAt, CloseAt, AfterMove, NewTrack, StatsOf, ActiveInfos, ConfigOf;
    match s
    case Write(i, clock) =>
      if i < |r.writes| {
        var w := r.writes[i];
        HeapHas(r, w.handle);
        WritePacketInv(r.heap[w.handle], w.packet, clock);
        TouchExtends(r, Do(r, s), w.handle, WritePacket(r.heap[w.handle], w.packet, clock).0);
      }
    case Rotate(i, h, now) =>
      if i < |r.cuts| && h in r.cuts[i].left {
        HeapHas(r, h);
        RotateAtInv(r.heap[h], r.cuts[i].cutoff, now);
        TouchExtends(r, Do(r, s), h, RotateAt(r.heap[h], r.cuts[i].cutoff, now));
      }
    case RemoveTrack(producer, end, closeNow, endNow) =>
      if Unlocked(r) && producer in r.tracks {
        var h := r.tracks[producer];
        HeapHas(r, h);
        CloseAtInv(r.heap[h], end, closeNow, endNow);
        TouchExtends(r, Do(r, s), h, CloseAt(r.heap[h], end, closeNow, endNow));
      }
    case StopClose(producer, closeNow, endNow) =>
      if r.stop.Closing? && producer in r.stop.left {
        var h := r.stop.left[producer];
        HeapHas(r, h);
        CloseAtInv(r.heap[h], None, closeNow, endNow);
        TouchExtends(r, Do(r, s), h, CloseAt(r.heap[h], None, closeNow, endNow));
      }
    case _ =>
  }

  lemma {:induction false} ClosedStaysFrozen(r: Room, steps: seq<Step>, h: nat)
    requires RoomInv(r) && h < |r.heap| && r.heap[h].closed
    ensures h < |RunRoom(r, steps).heap| && RunRoom(r, steps).heap[h] == r.heap[h]
    decreases |steps|
  {
    hide RoomInv, Do;
    if steps != [] {
      StepExtends(r, steps[0]);
      StepInv(r, steps[0]);
      ClosedStaysFrozen(Do(r, steps[0]), steps[1..], h);
    }
  }

  /** Whatever was looked up or collected before a track closed, afterwards no packet enters it, no
      segment is opened on it, and its data never changes. */
  lemma ClosedTracksFrozen(policy: Policy, segmentDuration: int, segmentMaxBytes: int,
                           before: seq<Step>, after: seq<Step>, h: nat)
    requires var r := ReachedRoom(policy, segmentDuration, segmentMaxBytes, before); h < |r.heap| && r.heap[h].closed
    ensures var r := ReachedRoom(policy, segmentDuration, segmentMaxBytes, before);
            var r' := ReachedRoom(policy, segmentDuration, segmentMaxBytes, before + after);
            h < |r'.heap| && r'.heap[h] == r.heap[h]
  {
    hide RoomInv, RunRoom;
    ReachedInv(policy, segmentDuration, segmentMaxBytes, before);
    RunConcat(NewRoom(policy, segmentDuration, segmentMaxBytes), before, after);
    ClosedStaysFrozen(ReachedRoom(policy, segmentDuration, segmentMaxBytes, before), after, h);
  }

  // ---------------------------------------------------------------- conservation

  /** Accepted packets = packets counted in active tracks plus packets counted in completed ones, in
      every state in which the two lists can be read; and each track holds its own packets in order. */
  lemma PacketsConserved(policy: Policy, segmentDuration: int, segmentMaxBytes: int, steps: seq<Step>)
    ensures var r := ReachedRoom(policy, segmentDuration, segmentMaxBytes, steps);
            && (Unlocked(r) ==>
                  |r.accepted| == SumLive(r.heap, r.tracks.Values, Packets) + CompletedPackets(r.completed))
            && (forall h :: 0 <= h < |r.heap| ==> Flatten(r.heap[h].contents) == ForTrack(r.accepted, h))
  {
    hide TrackInv, CompletedPackets, SumLive, SumOpen, Flatten, ForTrack;
    var r := ReachedRoom(policy, segmentDuration, segmentMaxBytes, steps);
    ReachedInv(policy, segmentDuration, segmentMaxBytes, steps);
    hide ReachedRoom;
    if Unlocked(r) {
      LiveHandlesOpen(r);
      SumLiveIsOpen(r.heap, r.tracks.Values, Packets);
    }
  }

  /** The state of a fresh room after `steps`. */
  ghost function ReachedRoom(policy: Policy, segmentDuration: int, segmentMaxBytes: int, steps: seq<Step>): Room {
    RunRoom(NewRoom(policy, segmentDuration, segmentMaxBytes), steps)
  }

  lemma ReachedInv(policy: Policy, segmentDuration: int, segmentMaxBytes: int, steps: seq<Step>)
    ensures RoomInv(ReachedRoom(policy, segmentDuration, segmentMaxBytes, steps))
  {
    hide RoomInv;
    NewRoomInv(policy, segmentDuration, segmentMaxBytes);
    RunRoomInv(NewRoom(policy, segmentDuration, segmentMaxBytes), steps);
  }

  lemma StepKeepsConfig(r: Room, step: Step)
    requires RoomInv(r)
    ensures var r' := Do(r, step);
            r'.policy == r.policy && r'.segmentDuration == r.segmentDuration && r'.segmentMaxBytes == r.segmentMaxBytes
  {
    hide RoomInv, TrackInv, WritePacket, TrackModel.RotateAt, CloseAt, NewTrack, StatsOf, ActiveInfos, ConfigOf;
  }

  lemma LiveHandlesOpen(r: Room)
    requires RoomInv(r) && Unlocked(r)
    ensures forall h :: 0 <= h < |r.heap| ==> (h in r.tracks.Values <==> !r.heap[h].closed)
  {
    hide HeapInv, CompletedInv, LogInv, CountInv, PhaseInv;
    forall h | 0 <= h < |r.heap| ensures h in r.tracks.Values <==> !r.heap[h].closed {
      if h in r.tracks.Values {
        var p :| p in r.tracks && r.tracks[p] == h;
        assert r.heap[Live(r)[p]].cfg.producerID == p;
      }
      if !r.heap[h].closed {
        assert r.tracks[r.heap[h].cfg.producerID] == h;
      }
    }
  }

  // ---------------------------------------------------------------- lifecycle

  function Rank(s: Status): nat {
    match s
    case Recording => 0
    case Stopping => 1
    case Completed => 2
    case Failed => 2
  }

  lemma StepLifecycle(r: Room, s: Step)
    requires RoomInv(r)
    ensures var r' := Do(r, s);
            && r'.policy == r.policy
            && Rank(r.status) <= Rank(r'.status) <= Rank(r.status) + 1
            && (Rank(r.status) == 2 ==> r'.status == r.status)
            && (AllClosed(r) ==> AllClosed(r') && r'.tracks == map[] && r'.completed == r.completed && r'.accepted == r.accepted)
  {
    hide HeapInv, CompletedInv, LogInv, CountInv, TracksCounted,
         TrackInv, WritePacket, TrackModel.RotateAt, CloseAt, AfterMove, NewTrack, StatsOf, ActiveInfos, ConfigOf;
    if s.Write? && s.i < |r.writes| {
      var w := r.writes[s.i];
      HeapHas(r, w.handle);
      WritePacketInv(r.heap[w.handle], w.packet, s.clock);
      assert r.accepted + [] == r.accepted;
    }
  }

  /** At some moment of the run the status is Stopping. */
  ghost predicate StoppingBetween(r: Room, steps: seq<Step>) {
    exists k :: 0 <= k <= |steps| && RunRoom(r, steps[..k]).status.Stopping?
  }

  lemma StoppingSoon(r: Room, steps: seq<Step>)
    requires steps != [] && (Do(r, steps[0]).status.Stopping? || StoppingBetween(Do(r, steps[0]), steps[1..]))
    ensures StoppingBetween(r, steps)
  {
    hide Do;
    var r1, rest := Do(r, steps[0]), steps[1..];
    var k := if r1.status.Stopping? then 0 else var k :| 0 <= k <= |rest| && RunRoom(r1, rest[..k]).status.Stopping?; k;
    assert rest[..0] == [] && RunRoom(r1, []) == r1;
    assert steps[..k + 1][0] == steps[0] && steps[..k + 1][1..] == rest[..k];
    assert RunRoom(r, steps[..k + 1]) == RunRoom(r1, rest[..k]);
  }

  lemma {:induction false} LifecycleFrom(r: Room, steps: seq<Step>)
    requires RoomInv(r)
    ensures var r' := RunRoom(r, steps);
            && r'.policy == r.policy
            && Rank(r.status) <= Rank(r'.status)
            && (Rank(r.status) == 2 ==> r'.status == r.status)
            && (Rank(r.status) == 0 && Rank(r'.status) == 2 ==> StoppingBetween(r, steps))
            && (AllClosed(r) ==> r'.tracks == map[] && r'.completed == r.completed && r'.accepted == r.accepted)
    decreases |steps|
  {
    hide RoomInv, Do;
    if steps != [] {
      StepInv(r, steps[0]);
      StepLifecycle(r, steps[0]);
      LifecycleFrom(Do(r, steps[0]), steps[1..]);
      var r1 := Do(r, steps[0]);
      if r1.status.Stopping? || (Rank(r1.status) == 0 && Rank(RunRoom(r, steps).status) == 2) {
        StoppingSoon(r, steps);
      }
    } else if AllClosed(r) {
      EmptyOnceClosed(r);
    }
  }

  /** The status only moves forward, one at a time, and a finished one never changes; once Stop has run its close
      loop, no track is ever active again, the completed list is frozen and no packet is accepted. */
  lemma Lifecycle(policy: Policy, segmentDuration: int, segmentMaxBytes: int, before: seq<Step>, after: seq<Step>)
    ensures var r := ReachedRoom(policy, segmentDuration, segmentMaxBytes, before);
            var r' := ReachedRoom(policy, segmentDuration, segmentMaxBytes, before + after);
            && r'.policy == policy
            && Rank(r.status) <= Rank(r'.status)
            && (Rank(r.status) == 2 ==> r'.status == r.status)
            && (Rank(r.status) == 0 && Rank(r'.status) == 2 ==> StoppingBetween(r, after))
            && (AllClosed(r) ==> r'.tracks == map[] && r'.completed == r.completed && r'.accepted == r.accepted)
  {
    hide RoomInv, RunRoom;
    var r0 := NewRoom(policy, segmentDuration, segmentMaxBytes);
    NewRoomInv(policy, segmentDuration, segmentMaxBytes);
    LifecycleFrom(r0, before);
    RunRoomInv(r0, before);
    RunConcat(r0, before, after);
    LifecycleFrom(RunRoom(r0, before), after);
  }

  lemma EmptyOnceClosed(r: Room)
    requires RoomInv(r) && AllClosed(r)
    ensures r.tracks == map[]
  {
    hide HeapInv, CompletedInv, LogInv, CountInv, LiveInv;
  }

  /** In every run an audio, video or screenshare track is recorded only if the policy has its flag set, and
      a track of unspecified type never. */
  lemma OnlyEnabledTypes(policy: Policy, segmentDuration: int, segmentMaxBytes: int, steps: seq<Step>)
    ensures var r := ReachedRoom(policy, segmentDuration, segmentMaxBytes, steps);
            && (forall h :: 0 <= h < |r.heap| ==> Allowed(policy, r.heap[h].cfg.trackType))
            && (forall p :: p in r.tracks ==> r.tracks[p] < |r.heap| && Allowed(policy, r.heap[r.tracks[p]].cfg.trackType))
            && (forall i :: 0 <= i < |r.completed| ==> Allowed(policy, r.completed[i].cfg.trackType))
  {
    hide TrackInv, ShouldRecord, Allowed;
    var r := ReachedRoom(policy, segmentDuration, segmentMaxBytes, steps);
    Lifecycle(policy, segmentDuration, segmentMaxBytes, steps, []);
    assert steps + [] == steps;
    ReachedInv(policy, segmentDuration, segmentMaxBytes, steps);
    hide ReachedRoom;
    forall h | 0 <= h < |r.heap| ensures Allowed(policy, r.heap[h].cfg.trackType) {
      AllowedIsRecorded(policy, r.heap[h].cfg.trackType);
    }
    forall i | 0 <= i < |r.completed| ensures Allowed(policy, r.completed[i].cfg.trackType) {
      assert r.completed[i] == r.heap[r.completedOf[i]].Info();
    }
  }

  // ---------------------------------------------------------------- metadata

  /** The metadata that Stop writes, even with late writes, cuts, removals and failed additions between
      its phases: every recorded track once, every segment ended, and totals that agree with the list
      and with the packets the room accepted. `order` maps list positions to tracks. */
  lemma FinalMetadata(policy: Policy, segmentDuration: int, segmentMaxBytes: int, steps: seq<Step>)
    requires var r := ReachedRoom(policy, segmentDuration, segmentMaxBytes, steps); r.stop.Written? || r.stop.Finished?
    ensures var r := ReachedRoom(policy, segmentDuration, segmentMaxBytes, steps);
            var (m, order) := (r.stop.metadata, r.completedOf);
            && |m.tracks| == m.trackCount == |r.heap| == |order|
            && (forall i, j :: 0 <= i < j < |order| ==> order[i] != order[j])
            && (forall i :: 0 <= i < |order| ==> order[i] < |r.heap| && Describes(m.tracks[i], r.heap[order[i]]))
            && (forall i, k :: 0 <= i < |m.tracks| && 0 <= k < |m.tracks[i].segments| ==> m.tracks[i].segments[k].endTime.Some?)
            && m.totalBytes == CompletedBytes(m.tracks)
            && CompletedPackets(m.tracks) == |r.accepted|
  {
    hide RoomInv, CompletedBytes, CompletedPackets, AllClosed;
    ReachedInv(policy, segmentDuration, segmentMaxBytes, steps);
    hide ReachedRoom;
    var r := ReachedRoom(policy, segmentDuration, segmentMaxBytes, steps);
    CompletedAfterStop(r);
    CompletedAreEnded(r);
  }

  /** Once Stop has written the metadata, the completed list is all there is. */
  lemma CompletedAfterStop(r: Room)
    requires RoomInv(r) && (r.stop.Written? || r.stop.Finished?)
    ensures var (m, order) := (r.stop.metadata, r.completedOf);
            && m.tracks == r.completed && m.totalBytes == CompletedBytes(m.tracks)
            && |m.tracks| == m.trackCount == |r.heap| == |order|
            && (forall i, j :: 0 <= i < j < |order| ==> order[i] != order[j])
            && (forall i :: 0 <= i < |order| ==> order[i] < |r.heap| && m.tracks[i] == r.heap[order[i]].Info())
            && CompletedPackets(m.tracks) == |r.accepted|
  {
    hide HeapInv, LogInv, CompletedBytes, CompletedPackets, LiveInv, SumOpen, SumLive;
    assert r.tracks == map[] && r.tracks.Values == {};
    LiveHandlesOpen(r);
    SumLiveIsOpen(r.heap, {}, Packets);
    SumLiveNothing(r.heap, Packets);
  }

  lemma CompletedAreEnded(r: Room)
    requires RoomInv(r)
    ensures forall i, k :: 0 <= i < |r.completed| && 0 <= k < |r.completed[i].segments| ==>
              r.completed[i].segments[k].endTime.Some?
  {
    hide LogInv, LiveInv, CountInv, PhaseInv, TracksCounted, TrackInv;
    forall i, k | 0 <= i < |r.completed| && 0 <= k < |r.completed[i].segments|
      ensures r.completed[i].segments[k].endTime.Some?
    {
      ClosedIsEnded(r.heap[r.completedOf[i]], k);
    }
  }

  lemma ClosedIsEnded(t: Track, k: nat)
    requires TrackInv(t) && t.closed && k < |t.segments|
    ensures t.segments[k].endTime.Some?
  {
    hide Flatten, FileOf, HeaderAt, PayloadBytes, Keys.SegmentFileName;
    assert k < |t.segments| - 1 ==> TrackModel.Finished(t, k);
  }

  // ---------------------------------------------------------------- statistics

  /** What Stats reports whenever the room lock is free. */
  function Visible(r: Room): Stats {
    Stats(|r.heap|, |r.peers|, SumOpen(r.heap, Payload) + CompletedBytes(r.completed))
  }

  lemma StatsVisible(r: Room)
    requires RoomInv(r) && Unlocked(r)
    ensures StatsOf(r) == Visible(r)
  {
    hide HeapInv, CompletedInv, LogInv, CountInv, PhaseInv, LiveInv, SumLive, SumOpen;
    LiveHandlesOpen(r);
    SumLiveIsOpen(r.heap, r.tracks.Values, Payload);
  }

  ghost predicate NotLess(a: Stats, b: Stats) {
    a.trackCount <= b.trackCount && a.peerCount <= b.peerCount && a.totalBytes <= b.totalBytes
  }

  lemma CloseVisible(r: Room, h: nat, end: Option<Time>, closeNow: Time, endNow: Time)
    requires RoomInv(r) && h < |r.heap| && !r.heap[h].closed
    ensures NotLess(Visible(r), Visible(CloseHandle(r, h, end, closeNow, endNow)))
  {
    hide HeapInv, CompletedInv, LogInv, CountInv, PhaseInv, LiveInv, TrackInv, CloseAt, SumOpen, SumBytes, SumPackets;
    HeapHas(r, h);
    var t' := CloseAt(r.heap[h], end, closeNow, endNow);
    CloseAtInv(r.heap[h], end, closeNow, endNow);
    SumOpenUpdate(r.heap, h, t', Payload);
    CompletedAppend(r.completed, t'.Info());
    ExactAccounting(t');
    CountsNatural(t');
  }

  lemma CountsNatural(t: Track)
    requires TrackInv(t)
    ensures t.packetCount >= 0 && t.totalBytes >= 0
  {
  }

  lemma StepStats(r: Room, s: Step)
    requires RoomInv(r)
    ensures NotLess(Visible(r), Visible(Do(r, s)))
  {
    hide HeapInv, LiveInv, AfterMove, CompletedInv, LogInv, CountInv, PhaseInv, TracksCounted, SumOpen,
         TrackInv, WritePacket, TrackModel.RotateAt, CloseHandle, CloseAt, NewTrack, StatsOf, ActiveInfos, ConfigOf;
    match s
    case AddTrack(_, _, _, _, _, _, now) =>
      NewTrackCounters(ConfigOf(r, s), now);
      SumOpenAppend(r.heap, NewTrack(ConfigOf(r, s), now), Payload);
    case Write(i, clock) =>
      if i < |r.writes| {
        var w := r.writes[i];
        HeapHas(r, w.handle);
        WritePacketInv(r.heap[w.handle], w.packet, clock);
        WriteCounts(r.heap[w.handle], w.packet, clock);
        SumOpenUpdate(r.heap, w.handle, WritePacket(r.heap[w.handle], w.packet, clock).0, Payload);
      }
    case Rotate(i, h, now) =>
      if i < |r.cuts| && h in r.cuts[i].left {
        HeapHas(r, h);
        RotateAtInv(r.heap[h], r.cuts[i].cutoff, now);
        SumOpenUpdate(r.heap, h, RotateAt(r.heap[h], r.cuts[i].cutoff, now), Payload);
      }
    case RemoveTrack(producer, end, closeNow, endNow) =>
      if Unlocked(r) && producer in r.tracks {
        OpenHandle(r, producer);
        CloseVisible(r, r.tracks[producer], end, closeNow, endNow);
      }
    case StopClose(producer, closeNow, endNow) =>
      if r.stop.Closing? && producer in r.stop.left {
        OpenHandle(r, producer);
        CloseVisible(r, r.stop.left[producer], None, closeNow, endNow);
      }
    case AddParticipant(peer) =>
      MorePeers(r.peers, peer);
    case _ =>
  }

  lemma MorePeers(peers: set<string>, peer: string)
    ensures |peers| <= |peers + {peer}|
  {
    if peer in peers {
      assert peers + {peer} == peers;
    }
  }

  lemma {:induction false} VisibleNeverDrops(r: Room, steps: seq<Step>)
    requires RoomInv(r)
    ensures NotLess(Visible(r), Visible(RunRoom(r, steps)))
    decreases |steps|
  {
    hide RoomInv, Do, Visible;
    if steps != [] {
      StepInv(r, steps[0]);
      StepStats(r, steps[0]);
      VisibleNeverDrops(Do(r, steps[0]), steps[1..]);
    }
  }

  /** Reported statistics never go backwards between any two moments at which they can be read, even
      though a track's share changes from payload bytes to file bytes when it completes. */
  lemma StatsNeverDrop(policy: Policy, segmentDuration: int, segmentMaxBytes: int, before: seq<Step>, after: seq<Step>)
    ensures var r := ReachedRoom(policy, segmentDuration, segmentMaxBytes, before);
            var r' := ReachedRoom(policy, segmentDuration, segmentMaxBytes, before + after);
            Unlocked(r) && Unlocked(r') ==> NotLess(StatsOf(r), StatsOf(r'))
  {
    hide RoomInv, Visible, StatsOf, RunRoom, Unlocked;
    var r := ReachedRoom(policy, segmentDuration, segmentMaxBytes, before);
    var r' := ReachedRoom(policy, segmentDuration, segmentMaxBytes, before + after);
    ReachedInv(policy, segmentDuration, segmentMaxBytes, before);
    RunConcat(NewRoom(policy, segmentDuration, segmentMaxBytes), before, after);
    RunRoomInv(r, after);
    if Unlocked(r) && Unlocked(r') {
      VisibleNeverDrops(r, after);
      StatsVisible(r);
      StatsVisible(r');
    }
  }

  // ---------------------------------------------------------------- object keys

  function SegmentKeyOf(roomID: string, recordingID: string, r: Room, h: nat, i: nat): string
    requires h < |r.heap|
  {
    Keys.SegmentKey(roomID, recordingID, r.heap[h].cfg.trackID, i + 1)
  }

  ghost predicate KeysDistinct(roomID: string, recordingID: string, r: Room) {
    forall h, k, i, j ::
      0 <= h < |r.heap| && 0 <= k < |r.heap| && 0 <= i < |r.heap[h].segments| && 0 <= j < |r.heap[k].segments|
      && (h != k || i != j)
      ==> SegmentKeyOf(roomID, recordingID, r, h, i) != SegmentKeyOf(roomID, recordingID, r, k, j)
  }

  ghost predicate IDsDistinct(r: Room) {
    forall h, k :: 0 <= h < k < |r.heap| ==> r.heap[h].cfg.trackID != r.heap[k].cfg.trackID
  }

  /** No two segments of a recording share an object key exactly when no two tracks share an ID. */
  lemma KeysDistinctIff(roomID: string, recordingID: string, r: Room)
    requires WellFormed(r)
    ensures KeysDistinct(roomID, recordingID, r) <==> IDsDistinct(r)
  {
    hide Keys.SegmentKey;
    if IDsDistinct(r) {
      forall h, k, i, j |
        0 <= h < |r.heap| && 0 <= k < |r.heap| && 0 <= i < |r.heap[h].segments| && 0 <= j < |r.heap[k].segments|
        && (h != k || i != j)
        ensures SegmentKeyOf(roomID, recordingID, r, h, i) != SegmentKeyOf(roomID, recordingID, r, k, j)
      {
        Keys.SegmentKeyInjective(roomID, recordingID, r.heap[h].cfg.trackID, i + 1, r.heap[k].cfg.trackID, j + 1);
      }
    } else {
      var h, k :| 0 <= h < k < |r.heap| && r.heap[h].cfg.trackID == r.heap[k].cfg.trackID;
      assert SegmentKeyOf(roomID, recordingID, r, h, 0) == SegmentKeyOf(roomID, recordingID, r, k, 0);
    }
  }

  /** A producer that is removed and added again starts over at segment 1 under the same track ID,
      so its new segment takes the key of an object that is already stored. */
  lemma ReAddedProducerReusesKey(roomID: string, recordingID: string, policy: Policy, now: Time)
    requires policy.recordAudio
    ensures var add := AddTrack("p", "alice", [], 0, 0, Audio, now);
            var r := RunRoom(NewRoomAt(policy), [add, RemoveTrack("p", None, now, now), add]);
            |r.heap| == 2 && !KeysDistinct(roomID, recordingID, r)
  {
    hide Keys.SegmentKey, Keys.TrackID, RoomInv, TrackInv, NewTrack, CloseAt, KeysDistinct;
    var add := AddTrack("p", "alice", [], 0, 0, Audio, now);
    var remove := RemoveTrack("p", None, now, now);
    var r0 := NewRoomAt(policy);
    var cfg := ConfigOf(r0, add);
    NewTrackInv(cfg, now);
    NewTrackCounters(cfg, now);
    CloseAtInv(NewTrack(cfg, now), None, now, now);
    StepInv(r0, add);
    var r1 := Do(r0, add);
    assert r1.heap == [NewTrack(cfg, now)] && "p" in r1.tracks && r1.tracks["p"] == 0;
    StepInv(r1, remove);
    var r2 := Do(r1, remove);
    assert r2.heap == [CloseAt(NewTrack(cfg, now), None, now, now)] && "p" !in r2.tracks;
    StepInv(r2, add);
    var r3 := Do(r2, add);
    assert r3.heap == r2.heap + [NewTrack(cfg, now)];
    RunThree(r0, add, remove, add);
    assert r3.heap[0].cfg == cfg && r3.heap[1].cfg == cfg;
    KeysDistinctIff(roomID, recordingID, r3);
  }

  /** What a run adds never reuses a producer, and all producer IDs have `n` characters. */
  ghost predicate FreshProducers(r: Room, steps: seq<Step>, n: nat) {
    && (forall i :: 0 <= i < |steps| && steps[i].AddTrack? ==> |steps[i].producer| == n)
    && (forall i, j :: 0 <= i < j < |steps| && steps[i].AddTrack? && steps[j].AddTrack? ==> steps[i].producer != steps[j].producer)
    && (forall h, i :: 0 <= h < |r.heap| && 0 <= i < |steps| && steps[i].AddTrack? ==> r.heap[h].cfg.producerID != steps[i].producer)
  }

  ghost predicate NamedByProducer(r: Room, n: nat) {
    && (forall h :: 0 <= h < |r.heap| ==>
          var cfg := r.heap[h].cfg;
          |cfg.producerID| == n && cfg.trackID == Keys.TrackID(cfg.peerID, TrackTypeName(cfg.trackType), cfg.producerID))
    && (forall h, k :: 0 <= h < k < |r.heap| ==> r.heap[h].cfg.producerID != r.heap[k].cfg.producerID)
  }

  lemma StepNames(r: Room, s: Step, n: nat)
    requires RoomInv(r) && NamedByProducer(r, n)
    requires s.AddTrack? ==> |s.producer| == n && forall h :: 0 <= h < |r.heap| ==> r.heap[h].cfg.producerID != s.producer
    ensures NamedByProducer(Do(r, s), n)
    ensures forall h :: 0 <= h < |Do(r, s).heap| ==>
              (h < |r.heap| && Do(r, s).heap[h].cfg == r.heap[h].cfg)
              || (s.AddTrack? && Do(r, s).heap[h].cfg.producerID == s.producer)
  {
    hide RoomInv, TrackInv, WritePacket, TrackModel.RotateAt, CloseAt, AfterMove, NewTrack, StatsOf, ActiveInfos, Keys.TrackID, TrackTypeName;
    StepExtends(r, s);
    if s.AddTrack? {
      NewTrackCounters(ConfigOf(r, s), s.now);
    }
  }

  lemma {:induction false} RunNames(r: Room, steps: seq<Step>, n: nat)
    requires RoomInv(r) && NamedByProducer(r, n) && FreshProducers(r, steps, n)
    ensures NamedByProducer(RunRoom(r, steps), n)
    decreases |steps|
  {
    hide RoomInv, Do, NamedByProducer;
    if steps != [] {
      StepInv(r, steps[0]);
      StepNames(r, steps[0], n);
      assert forall i :: 0 <= i < |steps| - 1 ==> steps[1..][i] == steps[i + 1];
      RunNames(Do(r, steps[0]), steps[1..], n);
    }
  }

  /** With producer IDs of one length and no producer added twice, no stored object is ever overwritten. */
  lemma FreshProducersGiveDistinctKeys(roomID: string, recordingID: string,
                                       policy: Policy, segmentDuration: int, segmentMaxBytes: int, steps: seq<Step>, n: nat)
    requires FreshProducers(NewRoom(policy, segmentDuration, segmentMaxBytes), steps, n)
    ensures KeysDistinct(roomID, recordingID, ReachedRoom(policy, segmentDuration, segmentMaxBytes, steps))
  {
    hide RoomInv, KeysDistinct, Keys.TrackID, TrackTypeName;
    NewRoomInv(policy, segmentDuration, segmentMaxBytes);
    RunNames(NewRoom(policy, segmentDuration, segmentMaxBytes), steps, n);
    var r := ReachedRoom(policy, segmentDuration, segmentMaxBytes, steps);
    ReachedInv(policy, segmentDuration, segmentMaxBytes, steps);
    forall h, k | 0 <= h < k < |r.heap| ensures r.heap[h].cfg.trackID != r.heap[k].cfg.trackID {
      var a, b := r.heap[h].cfg, r.heap[k].cfg;
      Keys.ProducersTellTracksApart(a.peerID, TrackTypeName(a.trackType), a.producerID, b.peerID, TrackTypeName(b.trackType), b.producerID);
    }
    KeysDistinctIff(roomID, recordingID, r);
  }

  ghost function NewRoomAt(policy: Policy): (r: Room)
    ensures RoomInv(r)
  {
    NewRoomInv(policy, 0, 0);
    NewRoom(policy, 0, 0)
  }
}
