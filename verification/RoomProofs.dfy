/** Safety of a room over every interleaving of its steps. */
module RoomProofs {
  import opened GoTypes
  import opened Brtp
  import opened TrackModel
  import opened TrackProofs
  import opened RoomModel
  import Keys

  // ---------------------------------------------------------------- the policy

  /** What a policy allows, flag by flag. */
  predicate Allowed(policy: Policy, kind: TrackType) {
    (kind == Audio && policy.recordAudio) || (kind == Video && policy.recordVideo) || (kind == Screenshare && policy.recordScreenshare)
  }

  lemma AllowedIsRecorded(policy: Policy, kind: TrackType)
    ensures Allowed(policy, kind) <==> ShouldRecord(policy, kind)
  {
  }

  // ---------------------------------------------------------------- sums and logs

  function OpenCounter(c: Counter, t: Track): int {
    if t.closed then 0 else CounterOf(c, t)
  }

  lemma {:induction false} SumOpenUpdate(heap: seq<Track>, h: nat, t: Track, c: Counter)
    requires h < |heap|
    ensures SumOpen(heap[h := t], c) == SumOpen(heap, c) - OpenCounter(c, heap[h]) + OpenCounter(c, t)
  {
    var n := |heap| - 1;
    if h == n {
      assert heap[h := t][..n] == heap[..n];
    } else {
      assert heap[h := t][..n] == heap[..n][h := t];
      SumOpenUpdate(heap[..n], h, t, c);
    }
  }

  lemma SumOpenAppend(heap: seq<Track>, t: Track, c: Counter)
    ensures SumOpen(heap + [t], c) == SumOpen(heap, c) + OpenCounter(c, t)
  {
    assert (heap + [t])[..|heap|] == heap;
  }

  /** Summing over the handles in the map is summing over the open tracks. */
  lemma {:induction false} SumLiveIsOpen(heap: seq<Track>, live: set<nat>, c: Counter)
    requires forall h :: 0 <= h < |heap| ==> (h in live <==> !heap[h].closed)
    ensures SumLive(heap, live, c) == SumOpen(heap, c)
  {
    if heap != [] {
      SumLiveIsOpen(heap[..|heap| - 1], live, c);
    }
  }

  lemma ForTrackAppend(log: seq<(nat, Packet)>, e: (nat, Packet), h: nat)
    ensures ForTrack(log + [e], h) == ForTrack(log, h) + if e.0 == h then [e.1] else []
  {
    assert (log + [e])[..|log|] == log;
  }

  lemma {:induction false} ForTrackOfOthers(log: seq<(nat, Packet)>, h: nat)
    requires forall i :: 0 <= i < |log| ==> log[i].0 != h
    ensures ForTrack(log, h) == []
  {
    if log != [] {
      ForTrackOfOthers(log[..|log| - 1], h);
    }
  }

  lemma CompletedAppend(infos: seq<TrackInfo>, info: TrackInfo)
    ensures CompletedBytes(infos + [info]) == CompletedBytes(infos) + SumBytes(info.segments)
    ensures CompletedPackets(infos + [info]) == CompletedPackets(infos) + SumPackets(info.segments)
  {
    assert (infos + [info])[..|infos|] == infos;
  }

  // ---------------------------------------------------------------- every step keeps the invariant

  lemma NewRoomInv(policy: Policy, segmentDuration: int, segmentMaxBytes: int)
    ensures RoomInv(NewRoom(policy, segmentDuration, segmentMaxBytes))
  {
  }

  /** Replacing an open track by one with the same identity, or a closed track by itself. */
  ghost predicate SameTrack(t: Track, t': Track) {
    TrackInv(t') && t'.cfg == t.cfg && t'.closed == t.closed && (t.closed ==> t' == t)
  }

  lemma TouchKeepsTracks(r: Room, r': Room, h: nat, t: Track)
    requires HeapInv(r) && LiveInv(r) && CompletedInv(r) && PhaseInv(r) && h < |r.heap| && SameTrack(r.heap[h], t)
    requires r' == r.(heap := r.heap[h := t], writes := r'.writes, cuts := r'.cuts, accepted := r'.accepted, store := r'.store)
    ensures HeapInv(r') && LiveInv(r') && CompletedInv(r') && PhaseInv(r')
  {
    hide TrackInv;
    assert forall k :: 0 <= k < |r.heap| ==> r'.heap[k].closed == r.heap[k].closed && r'.heap[k].cfg == r.heap[k].cfg;
    assert HeapInv(r');
    assert LiveInv(r');
    assert CompletedInv(r') by {
      forall i | 0 <= i < |r'.completedOf|
        ensures r'.heap[r'.completedOf[i]].closed && r'.completed[i] == r'.heap[r'.completedOf[i]].Info()
      {
        assert r.heap[r.completedOf[i]].closed;
      }
    }
  }

  lemma AddTrackInv(r: Room, s: Step)
    requires RoomInv(r) && s.AddTrack?
    ensures RoomInv(DoAddTrack(r, s))
  {
    hide TrackInv, NewTrack, ConfigOf, Keys.TrackID, HeapInv, LiveInv, CompletedInv, LogInv, CountInv, TracksCounted;
    var r' := DoAddTrack(r, s);
    if r' != r {
      var t := NewTrack(ConfigOf(r, s), s.now);
      NewTrackInv(ConfigOf(r, s), s.now);
      NewTrackCounters(ConfigOf(r, s), s.now);
      assert t.cfg == ConfigOf(r, s);
      ConfigFollows(r, s);
      AddKeepsLive(r, r', t, s.producer);
      AddKeepsHeap(r, r', t);
      AddKeepsCounts(r, r', t, s.producer);
    }
  }

  lemma ConfigFollows(r: Room, s: Step)
    requires s.AddTrack?
    ensures ConfigOf(r, s).producerID == s.producer && ConfigOf(r, s).trackType == s.kind
  {
  }

  lemma AddKeepsHeap(r: Room, r': Room, t: Track)
    requires HeapInv(r) && CompletedInv(r) && LogInv(r)
    requires TrackInv(t) && ShouldRecord(r.policy, t.cfg.trackType) && !t.closed && Flatten(t.contents) == []
    requires r' == r.(heap := r.heap + [t], tracks := r'.tracks)
    ensures HeapInv(r') && CompletedInv(r') && LogInv(r')
  {
    hide TrackInv, Flatten, ForTrack;
    ForTrackOfOthers(r.accepted, |r.heap|);
    assert forall k :: 0 <= k < |r.heap| ==> r'.heap[k] == r.heap[k];
    assert HeapInv(r') by { hide CompletedInv, LogInv; }
    assert CompletedInv(r') by { hide HeapInv, LogInv; }
    assert LogInv(r') by { hide HeapInv, CompletedInv; }
  }

  lemma AddKeepsCounts(r: Room, r': Room, t: Track, producer: string)
    requires CountInv(r) && TracksCounted(r) && Unlocked(r) && producer !in r.tracks && t.packetCount == 0
    requires r' == r.(heap := r.heap + [t], tracks := r.tracks[producer := |r.heap|])
    ensures CountInv(r') && TracksCounted(r')
  {
    hide SumOpen, CompletedPackets;
    SumOpenAppend(r.heap, t, Packets);
    assert r'.tracks.Keys == r.tracks.Keys + {producer};
    assert |r'.tracks| == |r'.tracks.Keys| == |r.tracks.Keys| + 1 == |r.tracks| + 1;
  }

  lemma AddKeepsLive(r: Room, r': Room, t: Track, producer: string)
    requires LiveInv(r) && Unlocked(r) && producer !in r.tracks && t.cfg.producerID == producer && !t.closed
    requires r' == r.(heap := r.heap + [t], tracks := r.tracks[producer := |r.heap|])
    ensures LiveInv(r')
  {
    assert Live(r) == r.tracks && Live(r') == r'.tracks;
    hide Live;
    assert forall h :: 0 <= h < |r.heap| ==> r'.heap[h] == r.heap[h];
    assert r'.heap[|r.heap|] == t;
    forall p | p in r'.tracks ensures r'.tracks[p] < |r'.heap| && r'.heap[r'.tracks[p]].cfg.producerID == p {
      if p != producer {
        assert p in r.tracks;
      }
    }
    forall h | 0 <= h < |r'.heap|
      ensures !r'.heap[h].closed <==> r'.heap[h].cfg.producerID in r'.tracks && r'.tracks[r'.heap[h].cfg.producerID] == h
    {
      if h < |r.heap| {
        assert r'.heap[h] == r.heap[h];
      }
    }
  }

  /** One track moved on, and accepted a packet or did not. */
  lemma TouchInv(r: Room, r': Room, h: nat, t: Track, p: Packet, ok: bool)
    requires RoomInv(r) && h < |r.heap| && SameTrack(r.heap[h], t) && t.Shaped()
    requires t.packetCount == r.heap[h].packetCount + (if ok then 1 else 0) && (ok ==> !r.heap[h].closed)
    requires Flatten(t.contents) == Flatten(r.heap[h].contents) + (if ok then [p] else [])
    requires r'.accepted == r.accepted + (if ok then [(h, p)] else [])
    requires r' == r.(heap := r.heap[h := t], writes := r'.writes, cuts := r'.cuts, accepted := r'.accepted, store := r'.store)
    requires forall i :: 0 <= i < |r'.writes| ==> r'.writes[i].handle < |r.heap|
    requires forall i, k :: 0 <= i < |r'.cuts| && k in r'.cuts[i].left ==> k < |r.heap|
    ensures RoomInv(r')
  {
    hide TrackInv, Flatten, ForTrack, HeapInv, LiveInv, CompletedInv, PhaseInv, LogInv, CountInv, TracksCounted;
    assert WellFormed(r');
    hide WellFormed;
    TouchKeepsTracks(r, r', h, t);
    TouchKeepsCounts(r, r', h, t, ok);
    LogGrows(r, r', h, p, ok);
  }

  lemma TouchKeepsCounts(r: Room, r': Room, h: nat, t: Track, ok: bool)
    requires CountInv(r) && TracksCounted(r) && h < |r.heap| && t.closed == r.heap[h].closed
    requires t.packetCount == r.heap[h].packetCount + (if ok then 1 else 0) && (ok ==> !t.closed)
    requires |r'.accepted| == |r.accepted| + (if ok then 1 else 0)
    requires r' == r.(heap := r.heap[h := t], writes := r'.writes, cuts := r'.cuts, accepted := r'.accepted, store := r'.store)
    ensures CountInv(r') && TracksCounted(r')
  {
    hide SumOpen, CompletedPackets;
    SumOpenUpdate(r.heap, h, t, Packets);
  }

  lemma WriteInv(r: Room, i: nat, clock: Reads)
    requires RoomInv(r)
    ensures RoomInv(DoWrite(r, i, clock))
  {
    hide TrackInv, WritePacket, AfterMove, Flatten, HeapInv, LiveInv, CompletedInv, LogInv, PhaseInv, CountInv, TracksCounted;
    if i < |r.writes| {
      var w := r.writes[i];
      var (t', ok) := WritePacket(r.heap[w.handle], w.packet, clock);
      HeapHas(r, w.handle);
      WritePacketInv(r.heap[w.handle], w.packet, clock);
      WriteCounts(r.heap[w.handle], w.packet, clock);
      TouchInv(r, DoWrite(r, i, clock), w.handle, t', w.packet, ok);
    }
  }

  lemma LogGrows(r: Room, r': Room, h: nat, p: Packet, ok: bool)
    requires LogInv(r) && h < |r.heap| == |r'.heap|
    requires r'.accepted == r.accepted + if ok then [(h, p)] else []
    requires Flatten(r'.heap[h].contents) == Flatten(r.heap[h].contents) + if ok then [p] else []
    requires forall k :: 0 <= k < |r.heap| && k != h ==> r'.heap[k] == r.heap[k]
    ensures LogInv(r')
  {
    hide Flatten, ForTrack;
    if ok {
      forall k | 0 <= k < |r'.heap| ensures Flatten(r'.heap[k].contents) == ForTrack(r'.accepted, k) {
        ForTrackAppend(r.accepted, (h, p), k);
        assert ForTrack(r.accepted, k) + [] == ForTrack(r.accepted, k);
      }
    } else {
      assert r'.accepted == r.accepted;
      assert Flatten(r.heap[h].contents) + [] == Flatten(r.heap[h].contents);
    }
  }

  lemma WriteCounts(t: Track, p: Packet, clock: Reads)
    requires t.Shaped()
    ensures var (t', ok) := WritePacket(t, p, clock);
            && t'.packetCount == t.packetCount + (if ok then 1 else 0)
            && t'.totalBytes == t.totalBytes + (if ok then |p.data| else 0)
  {
  }

  lemma RotateInv(r: Room, i: nat, h: nat, now: Time)
    requires RoomInv(r)
    ensures RoomInv(DoRotate(r, i, h, now))
  {
    hide TrackInv, TrackModel.RotateAt, AfterMove, Flatten, HeapInv, LiveInv, CompletedInv, LogInv, PhaseInv, CountInv, TracksCounted;
    if i < |r.cuts| && h in r.cuts[i].left {
      var t' := TrackModel.RotateAt(r.heap[h], r.cuts[i].cutoff, now);
      HeapHas(r, h);
      RotateAtInv(r.heap[h], r.cuts[i].cutoff, now);
      assert r.accepted + [] == r.accepted;
      assert Flatten(r.heap[h].contents) + [] == Flatten(r.heap[h].contents);
      TouchInv(r, DoRotate(r, i, h, now), h, t', Packet([], 0), false);
    }
  }

  /** Closing an open track moves its packets from the active to the completed count. */
  lemma CloseHandleInv(r: Room, h: nat, end: Option<Time>, closeNow: Time, endNow: Time)
    requires RoomInv(r) && h < |r.heap| && !r.heap[h].closed && !AllClosed(r)
    ensures var r' := CloseHandle(r, h, end, closeNow, endNow);
            WellFormed(r') && HeapInv(r') && CompletedInv(r') && PhaseInv(r') && LogInv(r') && CountInv(r')
  {
    hide TrackInv, TrackModel.CloseAt, AfterMove, HeapInv, LiveInv, CompletedInv, LogInv;
    var t := r.heap[h];
    var t' := CloseAt(t, end, closeNow, endNow);
    var r' := CloseHandle(r, h, end, closeNow, endNow);
    HeapHas(r, h);
    CloseAtInv(t, end, closeNow, endNow);
    CloseCompletes(r, r', h, t');
    CloseCounts(r, r', h, t');
    CloseKeepsHeap(r, r', h, t');
  }

  lemma HeapHas(r: Room, h: nat)
    requires HeapInv(r) && h < |r.heap|
    ensures TrackInv(r.heap[h])
  {
  }

  lemma CloseCounts(r: Room, r': Room, h: nat, t: Track)
    requires CountInv(r) && h < |r.heap| && !r.heap[h].closed
    requires TrackInv(t) && t.closed && t.packetCount == r.heap[h].packetCount
    requires r'.heap == r.heap[h := t] && r'.completed == r.completed + [t.Info()] && r'.accepted == r.accepted
    ensures CountInv(r')
  {
    hide TrackInv, SumOpen, SumPackets, SumBytes, CompletedPackets, CompletedBytes;
    SumOpenUpdate(r.heap, h, t, Packets);
    CompletedAppend(r.completed, t.Info());
    ExactAccounting(t);
  }

  lemma CloseKeepsHeap(r: Room, r': Room, h: nat, t: Track)
    requires HeapInv(r) && LogInv(r) && h < |r.heap|
    requires TrackInv(t) && t.cfg == r.heap[h].cfg && t.contents == r.heap[h].contents
    requires r'.heap == r.heap[h := t] && r'.accepted == r.accepted && r'.policy == r.policy
    ensures HeapInv(r') && LogInv(r')
  {
    hide TrackInv, Flatten, ForTrack;
  }

  lemma CloseCompletes(r: Room, r': Room, h: nat, t: Track)
    requires CompletedInv(r) && h < |r.heap| && !r.heap[h].closed && t.closed
    requires r' == r.(heap := r.heap[h := t], completed := r.completed + [t.Info()],
                      completedOf := r.completedOf + [h], store := r'.store)
    ensures CompletedInv(r')
  {
    forall i | 0 <= i < |r'.completedOf|
      ensures r'.heap[r'.completedOf[i]].closed && r'.completed[i] == r'.heap[r'.completedOf[i]].Info()
    {
      if i < |r.completedOf| {
        assert r'.completedOf[i] == r.completedOf[i] && r.heap[r.completedOf[i]].closed;
      }
    }
    forall k | 0 <= k < |r'.heap| && r'.heap[k].closed ensures k in r'.completedOf {
      if k == h {
        assert r'.completedOf[|r.completedOf|] == h;
      } else {
        assert r.heap[k].closed && k in r.completedOf;
      }
    }
  }

  lemma CloseKeepsLive(r: Room, r': Room, producer: string, t: Track)
    requires LiveInv(r) && producer in Live(r) && t.closed && t.cfg == r.heap[Live(r)[producer]].cfg
    requires r'.heap == r.heap[Live(r)[producer] := t] && Live(r') == Live(r) - {producer}
    ensures LiveInv(r')
  {
    var h := Live(r)[producer];
    forall k | 0 <= k < |r'.heap|
      ensures !r'.heap[k].closed <==> r'.heap[k].cfg.producerID in Live(r') && Live(r')[r'.heap[k].cfg.producerID] == k
    {
      if k != h {
        assert r'.heap[k] == r.heap[k];
      }
    }
  }

  /** One track is closed and its producer is not active any more. */
  lemma ClosedOneInv(r: Room, r': Room, producer: string, end: Option<Time>, closeNow: Time, endNow: Time)
    requires RoomInv(r) && producer in Live(r) && !AllClosed(r)
    requires r' == CloseHandle(r, Live(r)[producer], end, closeNow, endNow).(tracks := r'.tracks, stop := r'.stop)
    requires Live(r') == Live(r) - {producer} && PhaseInv(r') && WellFormed(r')
    ensures RoomInv(r')
  {
    hide TrackInv, TrackModel.CloseAt, AfterMove, HeapInv, CompletedInv, LogInv, CountInv, PhaseInv, LiveInv, Live, WellFormed;
    var h := Live(r)[producer];
    OpenHandle(r, producer);
    CloseHandleInv(r, h, end, closeNow, endNow);
    CloseAtInv(r.heap[h], end, closeNow, endNow);
    CloseKeepsLive(r, r', producer, CloseAt(r.heap[h], end, closeNow, endNow));
    RemovedOne(Live(r), producer);
    FrameInv(CloseHandle(r, h, end, closeNow, endNow), r');
  }

  lemma RemoveTrackInv(r: Room, producer: string, end: Option<Time>, closeNow: Time, endNow: Time)
    requires RoomInv(r)
    ensures RoomInv(DoRemoveTrack(r, producer, end, closeNow, endNow))
  {
    hide TrackInv, TrackModel.CloseAt, AfterMove, HeapInv, CompletedInv, LogInv, CountInv, LiveInv, TracksCounted;
    if Unlocked(r) && producer in r.tracks {
      var r' := DoRemoveTrack(r, producer, end, closeNow, endNow);
      assert PhaseInv(r') && WellFormed(r');
      hide PhaseInv, WellFormed;
      ClosedOneInv(r, r', producer, end, closeNow, endNow);
    }
  }

  lemma OpenHandle(r: Room, producer: string)
    requires RoomInv(r) && producer in Live(r)
    ensures var h := Live(r)[producer]; h < |r.heap| && TrackInv(r.heap[h]) && !r.heap[h].closed
  {
    hide HeapInv, CompletedInv, LogInv, CountInv;
    HeapHas(r, Live(r)[producer]);
  }

  lemma RemovedOne(m: map<string, nat>, producer: string)
    requires producer in m
    ensures |m - {producer}| == |m| - 1
  {
    assert (m - {producer}).Keys == m.Keys - {producer};
  }

  /** These invariants read only the tracks, the completed list and the log. */
  lemma FrameInv(r: Room, r': Room)
    requires r'.heap == r.heap && r'.completed == r.completed && r'.completedOf == r.completedOf
    requires r'.accepted == r.accepted && r'.policy == r.policy
    ensures HeapInv(r) ==> HeapInv(r')
    ensures CompletedInv(r) ==> CompletedInv(r')
    ensures LogInv(r) ==> LogInv(r')
    ensures CountInv(r) ==> CountInv(r')
  {
  }

  lemma StopCloseInv(r: Room, producer: string, closeNow: Time, endNow: Time)
    requires RoomInv(r)
    ensures RoomInv(DoStopClose(r, producer, closeNow, endNow))
  {
    hide TrackInv, TrackModel.CloseAt, AfterMove, HeapInv, CompletedInv, LogInv, CountInv, LiveInv, TracksCounted;
    if r.stop.Closing? && producer in r.stop.left {
      var r' := DoStopClose(r, producer, closeNow, endNow);
      assert PhaseInv(r') && WellFormed(r');
      hide PhaseInv, WellFormed;
      ClosedOneInv(r, r', producer, None, closeNow, endNow);
    }
  }

  lemma SumLiveNothing(heap: seq<Track>, c: Counter)
    ensures SumLive(heap, {}, c) == 0 && ActiveInfos(heap, {}) == []
  {
  }

  lemma StopUnlockInv(r: Room)
    requires RoomInv(r)
    ensures RoomInv(DoStopUnlock(r))
  {
    hide HeapInv, CompletedInv, LogInv, CountInv;
    var r' := DoStopUnlock(r);
    assert LiveInv(r') && PhaseInv(r') && WellFormed(r');
    FrameInv(r, r');
  }

  lemma StopMetadataInv(r: Room)
    requires RoomInv(r)
    ensures RoomInv(DoStopMetadata(r))
  {
    hide HeapInv, CompletedInv, LogInv, CountInv;
    var r' := DoStopMetadata(r);
    SumLiveNothing(r.heap, Payload);
    assert AllClosed(r) ==> r.tracks.Values == {};
    assert [] + r.completed == r.completed;
    assert LiveInv(r') && PhaseInv(r') && WellFormed(r');
    FrameInv(r, r');
  }

  /** Steps that touch neither the tracks nor the completed list. */
  lemma BookkeepingInv(r: Room, r': Room)
    requires RoomInv(r) && WellFormed(r') && PhaseInv(r') && Live(r') == Live(r)
    requires r'.heap == r.heap && r'.completed == r.completed && r'.completedOf == r.completedOf
    requires r'.accepted == r.accepted && r'.policy == r.policy
    ensures RoomInv(r')
  {
    hide WellFormed, HeapInv, CompletedInv, LogInv, CountInv, PhaseInv;
    FrameInv(r, r');
  }

  lemma LookUpInv(r: Room, producer: string, packet: Packet)
    requires RoomInv(r)
    ensures RoomInv(DoLookUp(r, producer, packet))
  {
    hide HeapInv, CompletedInv, LogInv, CountInv, LiveInv;
    BookkeepingInv(r, DoLookUp(r, producer, packet));
  }

  lemma CollectInv(r: Room, cutoff: Option<Time>)
    requires RoomInv(r)
    ensures RoomInv(DoCollect(r, cutoff))
  {
    hide HeapInv, CompletedInv, LogInv, CountInv, LiveInv;
    BookkeepingInv(r, DoCollect(r, cutoff));
  }

  lemma AddParticipantInv(r: Room, peer: string)
    requires RoomInv(r)
    ensures RoomInv(r.(peers := r.peers + {peer}))
  {
    hide HeapInv, CompletedInv, LogInv, CountInv, LiveInv;
    BookkeepingInv(r, r.(peers := r.peers + {peer}));
  }

  lemma StopBeginInv(r: Room)
    requires RoomInv(r)
    ensures RoomInv(DoStopMark(r)) && RoomInv(DoStopLock(r))
  {
    hide HeapInv, CompletedInv, LogInv, CountInv, LiveInv;
    BookkeepingInv(r, DoStopMark(r));
    BookkeepingInv(r, DoStopLock(r));
  }

  lemma StopEndInv(r: Room, finalized: bool)
    requires RoomInv(r)
    ensures RoomInv(DoStopSnapshot(r)) && RoomInv(DoStopFinish(r, finalized))
  {
    hide HeapInv, CompletedInv, LogInv, CountInv, LiveInv;
    BookkeepingInv(r, DoStopSnapshot(r));
    BookkeepingInv(r, DoStopFinish(r, finalized));
  }

  lemma StepInv(r: Room, s: Step)
    requires RoomInv(r)
    ensures RoomInv(Do(r, s))
  {
    hide RoomInv, DoAddTrack, DoRemoveTrack, DoLookUp, DoWrite, DoCollect, DoRotate, DoStopMark, DoStopLock,
         DoStopClose, DoStopUnlock, DoStopSnapshot, DoStopMetadata, DoStopFinish;
    match s
    case AddTrack(_, _, _, _, _, _, _) => AddTrackInv(r, s);
    case RemoveTrack(producer, end, closeNow, endNow) => RemoveTrackInv(r, producer, end, closeNow, endNow);
    case AddParticipant(peer) => AddParticipantInv(r, peer);
    case LookUp(producer, packet) => LookUpInv(r, producer, packet);
    case Write(i, clock) => WriteInv(r, i, clock);
    case Collect(cutoff) => CollectInv(r, cutoff);
    case Rotate(i, h, now) => RotateInv(r, i, h, now);
    case StopClose(producer, closeNow, endNow) => StopCloseInv(r, producer, closeNow, endNow);
    case StopUnlock => StopUnlockInv(r);
    case StopMetadata => StopMetadataInv(r);
    case StopMark => StopBeginInv(r);
    case StopLock => StopBeginInv(r);
    case StopSnapshot => StopEndInv(r, true);
    case StopFinish(finalized) => StopEndInv(r, finalized);
  }

  /** Any number of steps, in any order, from any number of callers. */
  ghost function RunRoom(r: Room, steps: seq<Step>): Room
    decreases |steps|
  {
    if steps == [] then r else RunRoom(Do(r, steps[0]), steps[1..])
  }

  lemma {:induction false} RunRoomInv(r: Room, steps: seq<Step>)
    requires RoomInv(r)
    ensures RoomInv(RunRoom(r, steps))
    decreases |steps|
  {
    hide RoomInv, Do;
    if steps != [] {
      StepInv(r, steps[0]);
      RunRoomInv(Do(r, steps[0]), steps[1..]);
    }
  }

  lemma RunOne(r: Room, s: Step)
    requires RoomInv(r)
    ensures RoomInv(Do(r, s)) && RunRoom(r, [s]) == Do(r, s)
  {
    hide RoomInv, Do;
    StepInv(r, s);
    assert [s][1..] == [];
    assert RunRoom(Do(r, s), []) == Do(r, s);
  }

  lemma {:induction false} RunAppend(r: Room, steps: seq<Step>, s: Step)
    ensures RunRoom(r, steps + [s]) == Do(RunRoom(r, steps), s)
    decreases |steps|
  {
    hide Do;
    if steps == [] {
      assert [] + [s] == [s];
      assert [s][1..] == [];
      assert RunRoom(Do(r, s), []) == Do(r, s);
    } else {
      RunAppend(Do(r, steps[0]), steps[1..], s);
      assert (steps + [s])[1..] == steps[1..] + [s];
    }
  }

  /** An undisturbed packet write: look up, then write. */
  lemma LookUpThenWrite(r: Room, producer: string, p: Packet, clock: Reads)
    requires RoomInv(r) && Unlocked(r) && r.writes == []
    ensures var r' := RunRoom(r, [LookUp(producer, p), Step.Write(0, clock)]);
            if !r.status.Recording? || producer !in r.tracks then r' == r
            else
              var h := r.tracks[producer];
              var t := WritePacket(r.heap[h], p, clock).0;
              r' == r.(heap := r.heap[h := t], accepted := r'.accepted, store := AfterMove(r.store, r.heap[h], t))
  {
    hide RoomInv, WritePacket, AfterMove;
    RunOne(r, LookUp(producer, p));
    RunAppend(r, [LookUp(producer, p)], Step.Write(0, clock));
    assert [LookUp(producer, p)] + [Step.Write(0, clock)] == [LookUp(producer, p), Step.Write(0, clock)];
  }

  lemma HandlesDistinct(r: Room)
    requires RoomInv(r) && Unlocked(r)
    ensures forall p :: p in r.tracks ==> r.tracks[p] < |r.heap|
    ensures forall p, q :: p in r.tracks && q in r.tracks && p != q ==> r.tracks[p] != r.tracks[q]
  {
    hide HeapInv, CompletedInv, LogInv, CountInv, PhaseInv;
    assert Live(r) == r.tracks;
  }

  lemma LeftDistinct(r: Room)
    requires RoomInv(r) && r.stop.Closing?
    ensures forall p :: p in r.stop.left ==> r.stop.left[p] < |r.heap|
    ensures forall p, q :: p in r.stop.left && q in r.stop.left && p != q ==> r.stop.left[p] != r.stop.left[q]
  {
    hide HeapInv, CompletedInv, LogInv, CountInv, PhaseInv;
    assert Live(r) == r.stop.left;
  }

  lemma AddTrackEffect(r: Room, s: Step)
    requires RoomInv(r) && Unlocked(r) && s.AddTrack?
    ensures RunRoom(r, [s]) ==
            if !r.status.Recording? || s.producer in r.tracks || !ShouldRecord(r.policy, s.kind) then r
            else r.(heap := r.heap + [NewTrack(ConfigOf(r, s), s.now)], tracks := r.tracks[s.producer := |r.heap|])
  {
    hide RoomInv, NewTrack, ConfigOf;
    RunOne(r, s);
  }

  lemma RotateEffect(r: Room, i: nat, h: nat, now: Time)
    requires RoomInv(r) && i < |r.cuts| && h in r.cuts[i].left
    ensures h < |r.heap|
    ensures Do(r, Step.Rotate(i, h, now))
            == r.(heap := r.heap[h := RotateAt(r.heap[h], r.cuts[i].cutoff, now)],
                  cuts := r.cuts[i := PendingCut(r.cuts[i].left - {h}, r.cuts[i].cutoff)],
                  store := AfterMove(r.store, r.heap[h], RotateAt(r.heap[h], r.cuts[i].cutoff, now)))
  {
    hide RotateAt, AfterMove, HeapInv, LiveInv, CompletedInv, LogInv, CountInv;
  }

  lemma RemoveEffect(r: Room, producer: string, end: Option<Time>, closeNow: Time, endNow: Time)
    requires RoomInv(r) && Unlocked(r)
    ensures RunRoom(r, [RemoveTrack(producer, end, closeNow, endNow)]) ==
            if producer !in r.tracks then r
            else
              var h := r.tracks[producer];
              var t := CloseAt(r.heap[h], end, closeNow, endNow);
              r.(heap := r.heap[h := t], completed := r.completed + [t.Info()],
                 completedOf := r.completedOf + [h], tracks := r.tracks - {producer}, store := AfterMove(r.store, r.heap[h], t))
  {
    hide RoomInv, CloseAt, AfterMove;
    RunOne(r, RemoveTrack(producer, end, closeNow, endNow));
  }

  lemma StopCloseEffect(r: Room, producer: string, closeNow: Time, endNow: Time)
    requires RoomInv(r) && r.stop.Closing? && producer in r.stop.left
    ensures Do(r, StopClose(producer, closeNow, endNow)) ==
            var h := r.stop.left[producer];
            var t := CloseAt(r.heap[h], None, closeNow, endNow);
            r.(heap := r.heap[h := t], completed := r.completed + [t.Info()],
               completedOf := r.completedOf + [h], stop := Closing(r.stop.left - {producer}),
               store := AfterMove(r.store, r.heap[h], t))
  {
    hide RoomInv, CloseAt, AfterMove;
  }

  lemma {:induction false} SumLiveAdd(heap: seq<Track>, live: set<nat>, h: nat, c: Counter)
    requires h < |heap| && h !in live
    ensures SumLive(heap, live + {h}, c) == SumLive(heap, live, c) + CounterOf(c, heap[h])
  {
    var n := |heap| - 1;
    if h < n {
      SumLiveAdd(heap[..n], live, h, c);
    } else {
      SumLiveCongruent(heap[..n], live, live + {h}, c);
    }
  }

  lemma {:induction false} SumLiveCongruent(heap: seq<Track>, live: set<nat>, live': set<nat>, c: Counter)
    requires forall h :: 0 <= h < |heap| ==> (h in live <==> h in live')
    ensures SumLive(heap, live, c) == SumLive(heap, live', c)
  {
    if heap != [] {
      SumLiveCongruent(heap[..|heap| - 1], live, live', c);
    }
  }

  /** From `r` to `r'` the active tracks have been cut, except those of the producers in `left`. */
  ghost predicate CutExcept(r: Room, r': Room, cutoff: Option<Time>, clock: string -> Time, left: set<string>)
    requires RoomInv(r)
  {
    && r'.tracks == r.tracks && |r'.heap| == |r.heap|
    && forall p :: p in r.tracks ==>
         r'.heap[r.tracks[p]] == if p in left then r.heap[r.tracks[p]] else RotateAt(r.heap[r.tracks[p]], cutoff, clock(p))
  }

  lemma SameTracks(r: Room, r': Room, cutoff: Option<Time>, clock: string -> Time, left: set<string>)
    requires RoomInv(r) && CutExcept(r, r', cutoff, clock, left)
    ensures r'.tracks == r.tracks
  {
  }

  lemma CutOneMore(r: Room, r1: Room, r2: Room, cutoff: Option<Time>, clock: string -> Time, left: set<string>, p: string)
    requires RoomInv(r) && Unlocked(r) && RoomInv(r1) && CutExcept(r, r1, cutoff, clock, left)
    requires p in left && p in r.tracks
    requires r2.tracks == r1.tracks && r2.heap == r1.heap[r.tracks[p] := RotateAt(r1.heap[r.tracks[p]], cutoff, clock(p))]
    ensures CutExcept(r, r2, cutoff, clock, left - {p})
  {
    hide RotateAt, RoomInv;
    HandlesDistinct(r);
    forall q | q in r.tracks
      ensures r2.heap[r.tracks[q]] == if q in left - {p} then r.heap[r.tracks[q]] else RotateAt(r.heap[r.tracks[q]], cutoff, clock(q))
    {
    }
  }

  /** The parts of a room that closing a track leaves alone. */
  ghost predicate SameRoom(r: Room, r': Room) {
    && r'.policy == r.policy && r'.segmentDuration == r.segmentDuration && r'.segmentMaxBytes == r.segmentMaxBytes
    && r'.status == r.status && r'.peers == r.peers && r'.writes == r.writes && |r'.heap| == |r.heap|
  }

  /** Closing the track of `producer` leaves the tracks of the other producers in `others` alone. */
  ghost predicate OnlyClosed(r: Room, r': Room, others: map<string, nat>, producer: string, t: Track) {
    && SameRoom(r, r')
    && r'.completed == r.completed + [t.Info()]
    && forall q :: q in others && q != producer ==> others[q] < |r.heap| && r'.heap[others[q]] == r.heap[others[q]]
  }

  lemma StopCloseFacts(r: Room, producer: string, closeNow: Time, endNow: Time)
    requires RoomInv(r) && r.stop.Closing? && producer in r.stop.left
    ensures r.stop.left[producer] < |r.heap|
    ensures var r' := Do(r, StopClose(producer, closeNow, endNow));
            && RoomInv(r') && r'.tracks == r.tracks && r'.stop == Closing(r.stop.left - {producer})
            && OnlyClosed(r, r', r.stop.left, producer, CloseAt(r.heap[r.stop.left[producer]], None, closeNow, endNow))
  {
    hide RoomInv, CloseAt, Do;
    StopCloseEffect(r, producer, closeNow, endNow);
    StepInv(r, StopClose(producer, closeNow, endNow));
    LeftDistinct(r);
  }

  lemma RemoveFacts(r: Room, producer: string, end: Option<Time>, closeNow: Time, endNow: Time)
    requires RoomInv(r) && Unlocked(r) && producer in r.tracks
    ensures r.tracks[producer] < |r.heap|
    ensures var r' := RunRoom(r, [RemoveTrack(producer, end, closeNow, endNow)]);
            && r'.tracks == r.tracks - {producer} && Unlocked(r')
            && OnlyClosed(r, r', r.tracks, producer, CloseAt(r.heap[r.tracks[producer]], end, closeNow, endNow))
  {
    hide RoomInv, CloseAt, RunRoom;
    RemoveEffect(r, producer, end, closeNow, endNow);
    HandlesDistinct(r);
  }

  /** Only the track `h` moved on, to `t`; the others are where they were. */
  ghost predicate OnlyMoved(r: Room, r': Room, h: nat, t: Track) {
    && SameRoom(r, r') && r'.completed == r.completed && r'.tracks == r.tracks && r'.stop == r.stop
    && h < |r.heap| && r'.heap[h] == t
    && (forall q :: q in r.tracks && r.tracks[q] != h ==> r.tracks[q] < |r.heap| && r'.heap[r.tracks[q]] == r.heap[r.tracks[q]])
    && (forall q, u :: q in r.tracks && u in r.tracks && q != u ==> r.tracks[q] != r.tracks[u])
  }

  lemma DeliverFacts(r: Room, producer: string, p: Packet, clock: Reads)
    requires RoomInv(r) && Unlocked(r) && r.writes == [] && r.status.Recording? && producer in r.tracks
    ensures r.tracks[producer] < |r.heap| && !r.heap[r.tracks[producer]].closed
    ensures var r' := RunRoom(r, [LookUp(producer, p), Step.Write(0, clock)]);
            RoomInv(r') && OnlyMoved(r, r', r.tracks[producer], WritePacket(r.heap[r.tracks[producer]], p, clock).0)
  {
    hide RoomInv, WritePacket, RunRoom;
    LookUpThenWrite(r, producer, p, clock);
    RunRoomInv(r, [LookUp(producer, p), Step.Write(0, clock)]);
    HandlesDistinct(r);
    OpenHandle(r, producer);
  }

  lemma RotateFacts(r: Room, producer: string, i: nat, now: Time)
    requires RoomInv(r) && Unlocked(r) && producer in r.tracks && i < |r.cuts| && r.tracks[producer] in r.cuts[i].left
    ensures r.tracks[producer] < |r.heap| && r.heap[r.tracks[producer]].Shaped()
    ensures var h, r' := r.tracks[producer], Do(r, Step.Rotate(i, r.tracks[producer], now));
            RoomInv(r') && OnlyMoved(r, r', h, RotateAt(r.heap[h], r.cuts[i].cutoff, now))
  {
    hide RoomInv, RotateAt, Do;
    StepInv(r, Step.Rotate(i, r.tracks[producer], now));
    RotateEffect(r, i, r.tracks[producer], now);
    HandlesDistinct(r);
  }

  /** Stop's two steps before its loop, and the one after it. */
  lemma StopBegins(r: Room)
    requires RoomInv(r) && r.status.Recording? && Unlocked(r)
    ensures RunRoom(r, [StopMark, StopLock]) == r.(status := Stopping, stop := Closing(r.tracks))
  {
    hide RoomInv;
    RunOne(r, StopMark);
    RunAppend(r, [StopMark], StopLock);
    assert [StopMark] + [StopLock] == [StopMark, StopLock];
  }

  lemma StopUnlocks(r: Room)
    requires RoomInv(r) && r.stop == Closing(map[])
    ensures Do(r, StopUnlock) == r.(tracks := map[], stop := TracksClosed) && RoomInv(Do(r, StopUnlock))
  {
    hide RoomInv;
    StepInv(r, StopUnlock);
  }

  /** The last three phases of Stop, one after the other. */
  lemma StopPhases(r: Room, finalized: bool)
    requires RoomInv(r) && r.stop == TracksClosed
    ensures var m := Metadata(r.completed, |r.completed|, |r.peers|, StatsOf(r).totalBytes);
            DoStopFinish(DoStopMetadata(DoStopSnapshot(r)), finalized)
              == r.(status := if finalized then Completed else Failed, stop := Finished(m))
  {
    hide HeapInv, LiveInv, CompletedInv, LogInv, CountInv, TracksCounted, SumLive, CompletedBytes;
    assert r.tracks == map[] && r.tracks.Values == {};
    SumLiveNothing(r.heap, Payload);
    assert [] + r.completed == r.completed;
  }

  lemma PhaseSteps(r: Room, finalized: bool)
    requires WellFormed(r)
    ensures Do(r, StopSnapshot) == DoStopSnapshot(r)
    ensures Do(r, StopMetadata) == DoStopMetadata(r)
    ensures Do(r, StopFinish(finalized)) == DoStopFinish(r, finalized)
  {
    hide DoStopSnapshot, DoStopMetadata, DoStopFinish;
  }

  lemma StopFinishes(r: Room, finalized: bool)
    requires RoomInv(r) && r.stop == TracksClosed
    ensures var m := Metadata(r.completed, |r.completed|, |r.peers|, StatsOf(r).totalBytes);
            RunRoom(r, [StopSnapshot, StopMetadata, StopFinish(finalized)])
              == r.(status := if finalized then Completed else Failed, stop := Finished(m))
  {
    hide RoomInv, StatsOf, Do, WellFormed, DoStopSnapshot, DoStopMetadata, DoStopFinish;
    StopPhases(r, finalized);
    RunThree(r, StopSnapshot, StopMetadata, StopFinish(finalized));
    PhaseSteps(r, finalized);
    PhaseSteps(Do(r, StopSnapshot), finalized);
    PhaseSteps(Do(Do(r, StopSnapshot), StopMetadata), finalized);
  }

  lemma RunThree(r: Room, a: Step, b: Step, c: Step)
    requires RoomInv(r)
    ensures RoomInv(Do(r, a)) && RoomInv(Do(Do(r, a), b)) && RunRoom(r, [a, b, c]) == Do(Do(Do(r, a), b), c)
  {
    hide RoomInv, Do;
    RunOne(r, a);
    StepInv(Do(r, a), b);
    RunAppend(r, [a], b);
    RunAppend(r, [a, b], c);
    assert [a] + [b] == [a, b] && [a, b] + [c] == [a, b, c];
  }

  lemma {:induction false} RunConcat(r: Room, a: seq<Step>, b: seq<Step>)
    ensures RunRoom(r, a + b) == RunRoom(RunRoom(r, a), b)
    decreases |a|
  {
    hide Do;
    if a == [] {
      assert a + b == b;
    } else {
      RunConcat(Do(r, a[0]), a[1..], b);
      assert (a + b)[1..] == a[1..] + b;
    }
  }

  lemma RunNothing(r: Room)
    ensures RunRoom(r, []) == r
  {
  }
}
