/** What the steps of a room do, over every run: which track an AddTrack makes, where a packet goes, what a cut
    and a close leave, what the statistics say, and what a reader finds in the stored headers. None of it is
    stated through the functions that compute it. */
module RoomLaws {
  import opened GoTypes
  import opened Brtp
  import opened TrackModel
  import opened TrackProofs
  import opened TrackLaws
  import opened RoomModel
  import opened RoomProofs
  import opened RoomTheorems
  import opened RoomStore
  import Keys

  // ---------------------------------------------------------------- configuration

  lemma {:induction false} RunKeepsConfig(r: Room, steps: seq<Step>)
    requires RoomInv(r)
    ensures var r' := RunRoom(r, steps);
            r'.policy == r.policy && r'.segmentDuration == r.segmentDuration && r'.segmentMaxBytes == r.segmentMaxBytes
    decreases |steps|
  {
    hide RoomInv, Do;
    if steps != [] {
      StepInv(r, steps[0]);
      StepKeepsConfig(r, steps[0]);
      RunKeepsConfig(Do(r, steps[0]), steps[1..]);
    }
  }

  lemma ReachedConfig(policy: Policy, segmentDuration: int, segmentMaxBytes: int, steps: seq<Step>)
    ensures var r := ReachedRoom(policy, segmentDuration, segmentMaxBytes, steps);
            && RoomInv(r)
            && r.policy == policy && r.segmentDuration == segmentDuration && r.segmentMaxBytes == segmentMaxBytes
  {
    hide RoomInv, RunRoom;
    ReachedInv(policy, segmentDuration, segmentMaxBytes, steps);
    NewRoomInv(policy, segmentDuration, segmentMaxBytes);
    RunKeepsConfig(NewRoom(policy, segmentDuration, segmentMaxBytes), steps);
  }

  // ---------------------------------------------------------------- adding

  /** The new track carries what the call and the recording say, and has just started. */
  ghost predicate MadeFor(t: Track, s: Step, segmentDuration: int, segmentMaxBytes: int)
    requires s.AddTrack?
  {
    && Begins(t, t.cfg, s.now)
    && t.cfg.producerID == s.producer && t.cfg.peerID == s.peer && t.cfg.trackType == s.kind
    && t.cfg.codec == s.codec && t.cfg.ssrc == s.ssrc && t.cfg.payloadType == s.payloadType
    && t.cfg.segmentDuration == segmentDuration && t.cfg.segmentMaxBytes == segmentMaxBytes
    && IDSays(t.cfg.trackID, s.peer, s.kind, s.producer)
  }

  /** In every run: an AddTrack makes the producer active with a new track, if and only if the recording records,
      the producer is not active, the policy has the flag of the type set and Stop is not closing tracks;
      otherwise it changes nothing. */
  lemma AddLaw(policy: Policy, segmentDuration: int, segmentMaxBytes: int, steps: seq<Step>, s: Step)
    requires s.AddTrack?
    ensures var r := ReachedRoom(policy, segmentDuration, segmentMaxBytes, steps);
            var r', n := Do(r, s), |r.heap|;
            if !r.stop.Closing? && r.status == Recording && s.producer !in r.tracks && Allowed(policy, s.kind)
            then
              && |r'.heap| == n + 1 && MadeFor(r'.heap[n], s, segmentDuration, segmentMaxBytes)
              && r' == r.(heap := r.heap + [r'.heap[n]], tracks := r.tracks[s.producer := n])
            else r' == r
  {
    ReachedConfig(policy, segmentDuration, segmentMaxBytes, steps);
    hide RoomInv, ReachedRoom, NewTrack, TrackTypeName, Keys.TrackID, Begins, IDSays;
    AllowedIsRecorded(policy, s.kind);
    hide Allowed, ShouldRecord;
    var r := ReachedRoom(policy, segmentDuration, segmentMaxBytes, steps);
    StartLaw(ConfigOf(r, s), s.now);
    BeginsWith(ConfigOf(r, s), s.now);
    TrackIDSays(s.peer, s.kind, s.producer);
  }

  lemma BeginsWith(cfg: TrackConfig, now: Time)
    ensures NewTrack(cfg, now).cfg == cfg
  {
  }

  // ---------------------------------------------------------------- packets

  /** In every run: a look-up finds the track of an active producer while the recording records, and nothing
      else. */
  lemma LookUpLaw(policy: Policy, segmentDuration: int, segmentMaxBytes: int, steps: seq<Step>, producer: string, p: Packet)
    ensures var r := ReachedRoom(policy, segmentDuration, segmentMaxBytes, steps);
            var found := !r.stop.Closing? && r.status == Recording && producer in r.tracks;
            Do(r, LookUp(producer, p)) == r.(writes := r.writes + if found then [PendingWrite(r.tracks[producer], p)] else [])
  {
    ReachedConfig(policy, segmentDuration, segmentMaxBytes, steps);
    hide RoomInv, ReachedRoom;
    var r := ReachedRoom(policy, segmentDuration, segmentMaxBytes, steps);
    assert r.writes + [] == r.writes;
  }

  /** In every run and at whatever time: a packet that has been looked up is accepted, once, at the end of its own
      track if that is still open, and is refused without a trace if it has been closed meanwhile. */
  lemma PacketLaw(policy: Policy, segmentDuration: int, segmentMaxBytes: int, steps: seq<Step>, i: nat, clock: Reads)
    requires i < |ReachedRoom(policy, segmentDuration, segmentMaxBytes, steps).writes|
    ensures var r := ReachedRoom(policy, segmentDuration, segmentMaxBytes, steps);
            var r', h, p := Do(r, Step.Write(i, clock)), r.writes[i].handle, r.writes[i].packet;
            && h < |r.heap| == |r'.heap|
            && r' == r.(heap := r.heap[h := r'.heap[h]], writes := r.writes[..i] + r.writes[i + 1..],
                        accepted := r'.accepted, store := r'.store)
            && if r.heap[h].closed
               then r'.heap[h] == r.heap[h] && r'.accepted == r.accepted && r'.store == r.store
               else Wrote(r.heap[h], r'.heap[h], p, clock) && r'.accepted == r.accepted + [(h, p)]
  {
    ReachedConfig(policy, segmentDuration, segmentMaxBytes, steps);
    hide ReachedRoom;
    var r := ReachedRoom(policy, segmentDuration, segmentMaxBytes, steps);
    WriteStep(r, i, clock);
  }

  lemma WriteStep(r: Room, i: nat, clock: Reads)
    requires RoomInv(r) && i < |r.writes|
    ensures var r', h, p := Do(r, Step.Write(i, clock)), r.writes[i].handle, r.writes[i].packet;
            && h < |r.heap| == |r'.heap|
            && r' == r.(heap := r.heap[h := r'.heap[h]], writes := r.writes[..i] + r.writes[i + 1..],
                        accepted := r'.accepted, store := r'.store)
            && if r.heap[h].closed
               then r'.heap[h] == r.heap[h] && r'.accepted == r.accepted && r'.store == r.store
               else Wrote(r.heap[h], r'.heap[h], p, clock) && r'.accepted == r.accepted + [(h, p)]
  {
    hide HeapInv, LiveInv, CompletedInv, LogInv, CountInv, PhaseInv, TracksCounted, TrackInv, WritePacket, Wrote;
    HeapHas(r, r.writes[i].handle);
    WriteValues(r.heap[r.writes[i].handle], r.writes[i].packet, clock);
    assert r.accepted + [] == r.accepted;
  }

  // ---------------------------------------------------------------- cuts and closes

  /** In every run: a collected cut that reaches a track cuts it, if it is still open, and takes it off the cut. */
  lemma CutStepLaw(policy: Policy, segmentDuration: int, segmentMaxBytes: int, steps: seq<Step>, i: nat, h: nat, now: Time)
    requires var r := ReachedRoom(policy, segmentDuration, segmentMaxBytes, steps); i < |r.cuts| && h in r.cuts[i].left
    ensures var r := ReachedRoom(policy, segmentDuration, segmentMaxBytes, steps);
            var r' := Do(r, Step.Rotate(i, h, now));
            && h < |r.heap| == |r'.heap|
            && r' == r.(heap := r.heap[h := r'.heap[h]], cuts := r.cuts[i := PendingCut(r.cuts[i].left - {h}, r.cuts[i].cutoff)],
                        store := r'.store)
            && if r.heap[h].closed then r'.heap[h] == r.heap[h]
               else WasCut(r.heap[h], r'.heap[h], r.cuts[i].cutoff, now)
  {
    ReachedConfig(policy, segmentDuration, segmentMaxBytes, steps);
    hide ReachedRoom, RoomInv, RotateAt, TrackInv, WasCut, AfterMove, Do;
    var r := ReachedRoom(policy, segmentDuration, segmentMaxBytes, steps);
    RotateEffect(r, i, h, now);
    HeapOf(r);
    HeapHas(r, h);
    CutValues(r.heap[h], r.cuts[i].cutoff, now);
  }

  /** A close of track `h`: it is closed at the given time or at readings of the clock, listed once as completed
      with its final data, and nothing else of the room changes but the maps named. */
  ghost predicate ClosedOne(r: Room, r': Room, h: nat, end: Option<Time>, closeNow: Time, endNow: Time) {
    var n := |r.completed|;
    && h < |r.heap| == |r'.heap| && r'.heap == r.heap[h := r'.heap[h]] && WasClosed(r.heap[h], r'.heap[h], end, closeNow, endNow)
    && |r'.completed| == n + 1 && r'.completed[..n] == r.completed && Describes(r'.completed[n], r'.heap[h])
    && r'.completedOf == r.completedOf + [h]
    && r'.status == r.status && r'.peers == r.peers && r'.writes == r.writes && r'.cuts == r.cuts && r'.accepted == r.accepted
  }

  /** In every run: RemoveTrack closes the track of an active producer, while Stop is not closing tracks, and the
      producer is active no more; otherwise it changes nothing. */
  lemma RemoveLaw(policy: Policy, segmentDuration: int, segmentMaxBytes: int, steps: seq<Step>,
                  producer: string, end: Option<Time>, closeNow: Time, endNow: Time)
    ensures var r := ReachedRoom(policy, segmentDuration, segmentMaxBytes, steps);
            var r' := Do(r, RemoveTrack(producer, end, closeNow, endNow));
            if !r.stop.Closing? && producer in r.tracks
            then ClosedOne(r, r', r.tracks[producer], end, closeNow, endNow) && r'.tracks == r.tracks - {producer} && r'.stop == r.stop
            else r' == r
  {
    ReachedConfig(policy, segmentDuration, segmentMaxBytes, steps);
    hide ReachedRoom, RoomInv, CloseAt, TrackInv, WasClosed, AfterMove;
    var r := ReachedRoom(policy, segmentDuration, segmentMaxBytes, steps);
    if !r.stop.Closing? && producer in r.tracks {
      OpenHandle(r, producer);
      CloseValues(r.heap[r.tracks[producer]], end, closeNow, endNow);
    }
  }

  /** In every run: each round of Stop's loop closes one track that is still to be closed, at readings of its own. */
  lemma StopCloseLaw(policy: Policy, segmentDuration: int, segmentMaxBytes: int, steps: seq<Step>,
                     producer: string, closeNow: Time, endNow: Time)
    ensures var r := ReachedRoom(policy, segmentDuration, segmentMaxBytes, steps);
            var r' := Do(r, StopClose(producer, closeNow, endNow));
            if r.stop.Closing? && producer in r.stop.left
            then ClosedOne(r, r', r.stop.left[producer], None, closeNow, endNow) && r'.tracks == r.tracks
                 && r'.stop == Closing(r.stop.left - {producer})
            else r' == r
  {
    ReachedConfig(policy, segmentDuration, segmentMaxBytes, steps);
    hide ReachedRoom, RoomInv, CloseAt, TrackInv, WasClosed, AfterMove;
    var r := ReachedRoom(policy, segmentDuration, segmentMaxBytes, steps);
    if r.stop.Closing? && producer in r.stop.left {
      OpenHandle(r, producer);
      CloseValues(r.heap[r.stop.left[producer]], None, closeNow, endNow);
    }
  }

  // ---------------------------------------------------------------- headers in storage

  /** In every run in which no track ID is used twice: the object behind each finished segment with packets begins
      with a header that names the track's stream and the start listed for the segment. */
  lemma StoredHeaders(policy: Policy, segmentDuration: int, segmentMaxBytes: int, steps: seq<Step>, h: nat, i: nat)
    requires FreshIDs(NewRoom(policy, segmentDuration, segmentMaxBytes), steps)
    requires var r := ReachedRoom(policy, segmentDuration, segmentMaxBytes, steps);
             h < |r.heap| && i < FinishedCount(r.heap[h]) && i < |r.heap[h].contents| && r.heap[h].contents[i] != []
    ensures var r := ReachedRoom(policy, segmentDuration, segmentMaxBytes, steps);
            var t := r.heap[h];
            && i < |t.segments| && t.segments[i].fileName in r.store
            && HeaderSays(r.store[t.segments[i].fileName], t.cfg.ssrc, t.cfg.payloadType, t.cfg.codec, t.segments[i].startTime)
  {
    ReachedStore(policy, segmentDuration, segmentMaxBytes, steps);
    hide ReachedRoom, RoomInv, StoreInv, IDsDistinct, Legible, FreshIDs, HeaderSays, StoredObject, FinishedCount;
    var r := ReachedRoom(policy, segmentDuration, segmentMaxBytes, steps);
    assert Held(r.store, r.heap[h], i);
    SegmentHeader(r.heap[h], i);
  }

  // ---------------------------------------------------------------- statistics

  /** What one track adds to the reported bytes: the payload of its packets, and once it is closed the 10 bytes of
      each record and the 32 bytes of each header in its files. */
  function Share(packets: seq<Packet>, contents: seq<seq<Packet>>, closed: bool): int {
    PayloadBytes(packets) + if closed then 10 * |packets| + 32 * NonEmpty(contents) else 0
  }

  /** The shares of the first `k` tracks, in terms of the packets accepted for each. */
  function Reported(r: Room, k: nat): int
    requires k <= |r.heap|
  {
    if k == 0 then 0
    else Reported(r, k - 1) + Share(ForTrack(r.accepted, k - 1), r.heap[k - 1].contents, r.heap[k - 1].closed)
  }

  function OwnShare(t: Track): int {
    Share(Flatten(t.contents), t.contents, t.closed)
  }

  /** The shares of the closed tracks. */
  function ClosedShares(heap: seq<Track>): int {
    if heap == [] then 0
    else
      var t := heap[|heap| - 1];
      ClosedShares(heap[..|heap| - 1]) + if t.closed then OwnShare(t) else 0
  }

  lemma {:induction false} ClosedSharesUpdate(heap: seq<Track>, h: nat, t: Track)
    requires h < |heap|
    ensures ClosedShares(heap[h := t])
            == ClosedShares(heap) - (if heap[h].closed then OwnShare(heap[h]) else 0) + (if t.closed then OwnShare(t) else 0)
  {
    hide OwnShare;
    var n := |heap| - 1;
    if h == n {
      assert heap[h := t][..n] == heap[..n];
    } else {
      assert heap[h := t][..n] == heap[..n][h := t];
      ClosedSharesUpdate(heap[..n], h, t);
    }
  }

  lemma ClosedSharesAppend(heap: seq<Track>, t: Track)
    ensures ClosedShares(heap + [t]) == ClosedShares(heap) + if t.closed then OwnShare(t) else 0
  {
    hide OwnShare;
    assert (heap + [t])[..|heap|] == heap;
  }

  /** Completed tracks report their shares. */
  ghost predicate BytesInv(r: Room) {
    CompletedBytes(r.completed) == ClosedShares(r.heap)
  }

  lemma ClosedShare(t: Track)
    requires TrackInv(t) && t.closed
    ensures SumBytes(t.segments) == OwnShare(t)
  {
    ExactAccounting(t);
  }

  /** One track closes and is listed. */
  lemma CloseBytes(r: Room, r': Room, h: nat, t: Track)
    requires BytesInv(r) && h < |r.heap| && !r.heap[h].closed && TrackInv(t) && t.closed
    requires r'.heap == r.heap[h := t] && r'.completed == r.completed + [t.Info()]
    ensures BytesInv(r')
  {
    hide TrackInv, OwnShare, ClosedShares, CompletedBytes, SumBytes;
    ClosedSharesUpdate(r.heap, h, t);
    CompletedAppend(r.completed, t.Info());
    ClosedShare(t);
  }

  /** One track moves on without closing, or is closed already and stays as it is. */
  lemma MoveBytes(r: Room, r': Room, h: nat, t: Track)
    requires BytesInv(r) && h < |r.heap| && r'.heap == r.heap[h := t] && r'.completed == r.completed
    requires if r.heap[h].closed then t == r.heap[h] else !t.closed
    ensures BytesInv(r')
  {
    hide OwnShare, ClosedShares, CompletedBytes;
    ClosedSharesUpdate(r.heap, h, t);
  }

  lemma StepBytes(r: Room, s: Step)
    requires RoomInv(r) && BytesInv(r)
    ensures BytesInv(Do(r, s))
  {
    hide HeapInv, LiveInv, AfterMove, CompletedInv, LogInv, CountInv, PhaseInv, TracksCounted, BytesInv,
         TrackInv, WritePacket, RotateAt, CloseAt, NewTrack, StatsOf, ActiveInfos, ConfigOf;
    var r' := Do(r, s);
    match s
    case AddTrack(_, _, _, _, _, _, now) =>
      NewTrackCounters(ConfigOf(r, s), now);
      if r' != r {
        AppendBytes(r, r', NewTrack(ConfigOf(r, s), now));
      }
    case Write(i, clock) =>
      if i < |r.writes| {
        var h := r.writes[i].handle;
        HeapHas(r, h);
        WritePacketInv(r.heap[h], r.writes[i].packet, clock);
        MoveBytes(r, r', h, WritePacket(r.heap[h], r.writes[i].packet, clock).0);
      }
    case Rotate(i, h, now) =>
      if i < |r.cuts| && h in r.cuts[i].left {
        HeapHas(r, h);
        RotateAtInv(r.heap[h], r.cuts[i].cutoff, now);
        MoveBytes(r, r', h, RotateAt(r.heap[h], r.cuts[i].cutoff, now));
      }
    case RemoveTrack(producer, end, closeNow, endNow) =>
      if Unlocked(r) && producer in r.tracks {
        OpenHandle(r, producer);
        CloseAtInv(r.heap[r.tracks[producer]], end, closeNow, endNow);
        CloseBytes(r, r', r.tracks[producer], CloseAt(r.heap[r.tracks[producer]], end, closeNow, endNow));
      }
    case StopClose(producer, closeNow, endNow) =>
      if r.stop.Closing? && producer in r.stop.left {
        OpenHandle(r, producer);
        CloseAtInv(r.heap[r.stop.left[producer]], None, closeNow, endNow);
        CloseBytes(r, r', r.stop.left[producer], CloseAt(r.heap[r.stop.left[producer]], None, closeNow, endNow));
      }
    case _ => SameBytes(r, r');
  }

  lemma AppendBytes(r: Room, r': Room, t: Track)
    requires BytesInv(r) && r'.heap == r.heap + [t] && !t.closed && r'.completed == r.completed
    ensures BytesInv(r')
  {
    hide OwnShare, ClosedShares, CompletedBytes;
    ClosedSharesAppend(r.heap, t);
  }

  lemma SameBytes(r: Room, r': Room)
    requires BytesInv(r) && r'.heap == r.heap && r'.completed == r.completed
    ensures BytesInv(r')
  {
  }

  lemma {:induction false} RunBytes(r: Room, steps: seq<Step>)
    requires RoomInv(r) && BytesInv(r)
    ensures BytesInv(RunRoom(r, steps))
    decreases |steps|
  {
    hide RoomInv, Do, BytesInv;
    if steps != [] {
      StepInv(r, steps[0]);
      StepBytes(r, steps[0]);
      RunBytes(Do(r, steps[0]), steps[1..]);
    }
  }

  lemma {:induction false} SharesAddUp(r: Room, k: nat)
    requires HeapInv(r) && LogInv(r) && k <= |r.heap|
    ensures Reported(r, k) == SumOpen(r.heap[..k], Payload) + ClosedShares(r.heap[..k])
  {
    hide TrackInv, ForTrack;
    if k > 0 {
      SharesAddUp(r, k - 1);
      var t := r.heap[k - 1];
      assert r.heap[..k][..k - 1] == r.heap[..k - 1];
      assert Flatten(t.contents) == ForTrack(r.accepted, k - 1);
      if !t.closed {
        OpenShare(t);
      }
    }
  }

  lemma OpenShare(t: Track)
    requires TrackInv(t) && !t.closed
    ensures OwnShare(t) == OpenCounter(Payload, t)
  {
  }

  lemma ReportedAll(r: Room)
    requires RoomInv(r) && BytesInv(r)
    ensures Reported(r, |r.heap|) == SumOpen(r.heap, Payload) + CompletedBytes(r.completed)
  {
    hide HeapInv, LogInv;
    SharesAddUp(r, |r.heap|);
    assert r.heap[..|r.heap|] == r.heap;
  }

  /** In every run, whenever statistics can be read: TrackCount is the number of tracks ever added, PeerCount the
      number of different peers, and TotalBytes the payload of the packets accepted for active tracks plus the
      sizes of the files of closed ones. */
  lemma StatsLaw(policy: Policy, segmentDuration: int, segmentMaxBytes: int, steps: seq<Step>)
    requires !ReachedRoom(policy, segmentDuration, segmentMaxBytes, steps).stop.Closing?
    ensures var r := ReachedRoom(policy, segmentDuration, segmentMaxBytes, steps);
            var s := StatsOf(r);
            s.trackCount == |r.heap| && s.peerCount == |r.peers| && s.totalBytes == Reported(r, |r.heap|)
  {
    hide RoomInv, RunRoom, StatsOf, Reported;
    NewRoomInv(policy, segmentDuration, segmentMaxBytes);
    ReachedInv(policy, segmentDuration, segmentMaxBytes, steps);
    RunBytes(NewRoom(policy, segmentDuration, segmentMaxBytes), steps);
    var r := ReachedRoom(policy, segmentDuration, segmentMaxBytes, steps);
    hide ReachedRoom;
    ReportedAll(r);
    StatsVisible(r);
  }

  // ---------------------------------------------------------------- peers

  /** The peers whose AddParticipant got the room lock. */
  ghost function Joined(r: Room, steps: seq<Step>): set<string>
    decreases |steps|
  {
    if steps == [] then {}
    else (if steps[0].AddParticipant? && !r.stop.Closing? then {steps[0].peer} else {}) + Joined(Do(r, steps[0]), steps[1..])
  }

  lemma StepPeers(r: Room, s: Step)
    requires RoomInv(r)
    ensures Do(r, s).peers == r.peers + if s.AddParticipant? && !r.stop.Closing? then {s.peer} else {}
  {
    hide RoomInv, TrackInv, WritePacket, RotateAt, CloseAt, AfterMove, NewTrack, StatsOf, ActiveInfos, ConfigOf;
  }

  lemma {:induction false} PeersJoin(r: Room, steps: seq<Step>)
    requires RoomInv(r)
    ensures RunRoom(r, steps).peers == r.peers + Joined(r, steps)
    decreases |steps|
  {
    hide RoomInv, Do;
    if steps != [] {
      StepInv(r, steps[0]);
      StepPeers(r, steps[0]);
      PeersJoin(Do(r, steps[0]), steps[1..]);
    }
  }

  /** In every run the peers that PeerCount counts are exactly those added, each once. */
  lemma PeerLaw(policy: Policy, segmentDuration: int, segmentMaxBytes: int, steps: seq<Step>)
    ensures ReachedRoom(policy, segmentDuration, segmentMaxBytes, steps).peers
            == Joined(NewRoom(policy, segmentDuration, segmentMaxBytes), steps)
  {
    hide RoomInv, RunRoom, Joined;
    NewRoomInv(policy, segmentDuration, segmentMaxBytes);
    PeersJoin(NewRoom(policy, segmentDuration, segmentMaxBytes), steps);
  }

  // ---------------------------------------------------------------- Stop can always finish

  /** How far Stop still has to go. */
  function Ahead(r: Room): nat {
    match r.stop
    case Running => 0
    case Marked => 5
    case Closing(_) => 4
    case TracksClosed => 3
    case Snapshotted(_, _) => 2
    case Written(_) => 1
    case Finished(_) => 0
  }

  /** The next step of Stop. */
  ghost function NextOfStop(r: Room, now: Time): Step
    requires !r.stop.Running?
  {
    match r.stop
    case Marked => StopLock
    case Closing(left) => if left == map[] then StopUnlock else var p :| p in left; StopClose(p, now, now)
    case TracksClosed => StopSnapshot
    case Snapshotted(_, _) => StopMetadata
    case _ => StopFinish(true)
  }

  lemma StopAdvances(r: Room, now: Time)
    requires RoomInv(r) && !r.stop.Running? && !r.stop.Finished?
    ensures var s := NextOfStop(r, now);
            var r' := Do(r, s);
            && !s.StopMark? && !r'.stop.Running?
            && (Ahead(r') < Ahead(r) || (r.stop.Closing? && r'.stop.Closing? && r'.stop.left.Keys < r.stop.left.Keys))
  {
    hide RoomInv, TrackInv, CloseAt, AfterMove, NewTrack, StatsOf, ActiveInfos, ConfigOf, WritePacket, RotateAt;
  }

  /** From any state of a recording on which Stop has been called, and whatever happened since, its own steps lead to
      the end. */
  lemma {:induction false} StopCanFinish(r: Room, now: Time) returns (steps: seq<Step>)
    requires RoomInv(r) && !r.stop.Running?
    ensures RunRoom(r, steps).stop.Finished?
    ensures forall i :: 0 <= i < |steps| ==> !steps[i].StopMark?
    decreases Ahead(r), if r.stop.Closing? then r.stop.left.Keys else {}
  {
    hide RoomInv, Do;
    steps := [];
    if !r.stop.Finished? {
      var s := NextOfStop(r, now);
      StopAdvances(r, now);
      hide Ahead, NextOfStop;
      StepInv(r, s);
      var rest := StopCanFinish(Do(r, s), now);
      steps := [s] + rest;
      assert steps[1..] == rest;
    }
  }
}
