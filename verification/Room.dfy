/** RoomRecording as the code has it: a map of track writers, a list of completed tracks and a status,
    updated in place. Every call is proved to be a run of the steps of RoomModel. */
module Rooms {
  import opened GoTypes
  import opened Brtp
  import opened TrackModel
  import opened TrackProofs
  import opened TrackLaws
  import opened TrackWriters
  import opened RoomModel
  import opened RoomProofs
  import Keys

  /** The bytes of all segments of completed tracks. */
  method FileBytes(infos: seq<TrackInfo>) returns (total: int)
    ensures total == CompletedBytes(infos)
  {
    total := 0;
    for i := 0 to |infos|
      invariant total == CompletedBytes(infos[..i])
    {
      var segments := infos[i].segments;
      var track := 0;
      for j := 0 to |segments|
        invariant track == SumBytes(segments[..j])
      {
        SumBytesNext(segments, j);
        track := track + segments[j].bytes;
      }
      assert segments[..|segments|] == segments;
      assert infos[..i + 1][..i] == infos[..i];
      total := total + track;
    }
    assert infos[..|infos|] == infos;
  }

  /** A removal closes one track, lists it, and leaves the others where they were. */
  lemma RemovedValues(r: Room, producer: string, end: Option<Time>, closeNow: Time, endNow: Time) returns (t: Track)
    requires RoomInv(r) && Unlocked(r) && producer in r.tracks
    ensures r.tracks[producer] < |r.heap| && WasClosed(r.heap[r.tracks[producer]], t, end, closeNow, endNow)
    ensures var r' := RunRoom(r, [RemoveTrack(producer, end, closeNow, endNow)]);
            && r'.completed == r.completed + [t.Info()] && Describes(t.Info(), t)
            && forall q :: q in r'.tracks ==>
                 && q in r.tracks && r'.tracks[q] == r.tracks[q] && r.tracks[q] < |r.heap| == |r'.heap|
                 && r'.heap[r.tracks[q]] == r.heap[r.tracks[q]]
  {
    hide RoomInv, RunRoom, TrackModel.CloseAt, WasClosed;
    RemoveEffect(r, producer, end, closeNow, endNow);
    OpenHandle(r, producer);
    HandlesDistinct(r);
    CloseValues(r.heap[r.tracks[producer]], end, closeNow, endNow);
    t := TrackModel.CloseAt(r.heap[r.tracks[producer]], end, closeNow, endNow);
  }

  class RoomRecording {
    const policy: Policy
    const place: Place
    const segmentDuration: int
    const segmentMaxBytes: int

    var status: Status
    var tracks: map<string, TrackWriter>
    var completedTracks: seq<TrackInfo>
    var participants: set<string>

    ghost var model: Room
    ghost var Repr: set<object>

    /** The writers are separate objects, all owned by this room. */
    ghost predicate Owned()
      reads this`tracks, this`Repr, tracks.Values
    {
      && this in Repr
      && (forall p :: p in tracks ==> tracks[p] in Repr && tracks[p].Repr() <= Repr && this !in tracks[p].Repr())
      && (forall p, q :: p in tracks && q in tracks && p != q ==> tracks[p].Repr() !! tracks[q].Repr())
    }

    /** The writer of producer `p` is in the state of its track in the model. */
    ghost predicate Coupled(p: string)
      requires p in tracks
      reads this`tracks, this`model, tracks[p], tracks[p].Repr()
    {
      p in model.tracks && model.tracks[p] < |model.heap|
      && tracks[p].Valid() && tracks[p].place == place && tracks[p].View() == model.heap[model.tracks[p]]
    }

    ghost predicate Agrees()
      reads this
    {
      && RoomInv(model) && model.writes == []
      && model.policy == policy && model.segmentDuration == segmentDuration && model.segmentMaxBytes == segmentMaxBytes
      && model.status == status && model.completed == completedTracks && model.peers == participants
      && tracks.Keys == model.tracks.Keys
    }

    ghost predicate Valid(): (valid: bool)
      reads this, Repr, tracks.Values
      ensures valid ==> this in Repr && RoomInv(model) && Unlocked(model) && tracks.Keys == model.tracks.Keys
    {
      Owned() && Agrees() && Unlocked(model) && forall p :: p in tracks ==> Coupled(p)
    }

    constructor (policy: Policy, place: Place, segmentDuration: int, segmentMaxBytes: int)
      ensures Valid() && fresh(Repr) && model == NewRoom(policy, segmentDuration, segmentMaxBytes)
      ensures this.place == place && status.Recording? && tracks == map[]
    {
      this.policy, this.place, this.segmentDuration, this.segmentMaxBytes := policy, place, segmentDuration, segmentMaxBytes;
      status, tracks, completedTracks, participants := Recording, map[], [], {};
      model := NewRoom(policy, segmentDuration, segmentMaxBytes);
      Repr := {this};
      NewRoomInv(policy, segmentDuration, segmentMaxBytes);
    }

    /** After an operation on the writer of `p`, which may have replaced parts of its chain. */
    twostate lemma OneTouched(p: string)
      requires old(Owned()) && tracks == old(tracks) && p in tracks
      requires Repr == old(Repr) + tracks[p].Repr()
      requires fresh(tracks[p].Repr() - old(tracks[p].Repr()))
      requires forall q :: q in tracks && q != p ==> tracks[q].Repr() == old(tracks[q].Repr())
      ensures Owned()
    {
      hide TrackWriter.Repr;
    }

    lemma FollowsModel()
      requires Valid()
      ensures status == model.status && completedTracks == model.completed
    {
    }

    lemma TracksOwned()
      requires Valid()
      ensures forall p :: p in tracks ==> tracks[p] in Repr
    {
    }

    method AddTrack(producer: string, peer: string, codec: Bytes, ssrc: UInt32, payloadType: Byte, kind: TrackType, now: Time)
      returns (ok: bool)
      requires Valid()
      modifies this
      ensures ok <==> old(status.Recording?) && producer !in old(tracks)
      ensures model == RunRoom(old(model), [Step.AddTrack(producer, peer, codec, ssrc, payloadType, kind, now)])
      ensures if ok && Allowed(policy, kind)
              then
                && producer in tracks && tracks == old(tracks)[producer := tracks[producer]] && fresh(tracks[producer])
                && Enlisted(producer, peer, codec, ssrc, payloadType, kind, now)
              else tracks == old(tracks)
      ensures Valid() && fresh(Repr - old(Repr)) && status == old(status) && completedTracks == old(completedTracks)
    {
      AllowedIsRecorded(policy, kind);
      hide Allowed, ShouldRecord, Begins, IDSays;
      hide RoomInv, RunRoom, NewTrack, TrackWriter.Valid, TrackWriter.View, TrackWriter.Repr, Owned, Coupled;
      AddTrackEffect(model, Step.AddTrack(producer, peer, codec, ssrc, payloadType, kind, now));
      if !status.Recording? || producer in tracks {
        return false;
      }
      if !ShouldRecord(policy, kind) {
        return true;
      }
      Enlist(producer, peer, codec, ssrc, payloadType, kind, now);
      ok := true;
    }

    /** Create the writer and enter it. */
    method Enlist(producer: string, peer: string, codec: Bytes, ssrc: UInt32, payloadType: Byte, kind: TrackType, now: Time)
      requires Valid() && status.Recording? && producer !in tracks && ShouldRecord(policy, kind)
      modifies this
      ensures model == RunRoom(old(model), [Step.AddTrack(producer, peer, codec, ssrc, payloadType, kind, now)])
      ensures producer in tracks && tracks == old(tracks)[producer := tracks[producer]] && fresh(tracks[producer])
      ensures Enlisted(producer, peer, codec, ssrc, payloadType, kind, now)
      ensures Valid() && fresh(Repr - old(Repr)) && status == old(status) && completedTracks == old(completedTracks)
    {
      TrackIDSays(peer, kind, producer);
      hide ShouldRecord, Begins, IDSays, Keys.TrackID, TrackTypeName;
      hide RoomInv, RunRoom, NewTrack, TrackWriter.Valid, TrackWriter.View, TrackWriter.Repr, Owned, Coupled;
      var cfg := TrackConfig(Keys.TrackID(peer, TrackTypeName(kind), producer), producer, peer, kind,
                             codec, ssrc, payloadType, segmentDuration, segmentMaxBytes);
      var writer := new TrackWriter(cfg, place, now);
      Attach(producer, writer, Step.AddTrack(producer, peer, codec, ssrc, payloadType, kind, now));
    }

    /** The writer of the producer has just started, with what the call and the room say. */
    ghost predicate Enlisted(producer: string, peer: string, codec: Bytes, ssrc: UInt32, payloadType: Byte, kind: TrackType, now: Time)
      requires producer in tracks
      reads this, tracks[producer]
    {
      var cfg := tracks[producer].cfg;
      && Begins(tracks[producer].View(), cfg, now) && tracks[producer].place == place
      && cfg.producerID == producer && cfg.peerID == peer && cfg.trackType == kind
      && cfg.codec == codec && cfg.ssrc == ssrc && cfg.payloadType == payloadType
      && cfg.segmentDuration == segmentDuration && cfg.segmentMaxBytes == segmentMaxBytes
      && IDSays(cfg.trackID, peer, kind, producer)
    }

    method AddParticipant(peer: string)
      requires Valid()
      modifies this
      ensures Valid() && Repr == old(Repr) && model == RunRoom(old(model), [Step.AddParticipant(peer)])
      ensures participants == old(participants) + {peer}
      ensures tracks == old(tracks) && completedTracks == old(completedTracks) && status == old(status)
    {
      hide RoomInv, Coupled, Owned, TrackWriter.Valid, TrackWriter.View, TrackWriter.Repr;
      ghost var next := RunRoom(model, [Step.AddParticipant(peer)]);
      RunOne(model, Step.AddParticipant(peer));
      hide RunRoom;
      AddPeer(peer);
      Follow(next, tracks.Keys, tracks.Keys);
    }

    method AddPeer(peer: string)
      requires Owned() && forall p :: p in tracks ==> Coupled(p)
      modifies this`participants
      ensures participants == old(participants) + {peer}
      ensures Owned() && forall p :: p in tracks ==> Coupled(p)
    {
      participants := participants + {peer};
    }

    /** Enter a new writer in the map. */
    method Attach(producer: string, writer: TrackWriter, ghost step: Step)
      requires Valid() && status.Recording? && producer !in tracks
      requires step.AddTrack? && step.producer == producer && ShouldRecord(policy, step.kind)
      requires writer.Valid() && writer.place == place && writer.Repr() !! Repr && writer.View() == NewTrack(ConfigOf(model, step), step.now)
      modifies this
      ensures model == RunRoom(old(model), [step])
      ensures tracks == old(tracks)[producer := writer] && writer.View() == old(writer.View()) && writer.place == place
      ensures Valid() && Repr == old(Repr) + writer.Repr() && status == old(status) && completedTracks == old(completedTracks)
    {
      hide RoomInv, RunRoom, NewTrack, ConfigOf, Coupled, Owned, TrackWriter.Valid, TrackWriter.View, TrackWriter.Repr;
      AddTrackEffect(model, step);
      RunRoomInv(model, [step]);
      ghost var before := tracks.Keys;
      ghost var next := RunRoom(model, [step]);
      Insert(producer, writer);
      Follow(next, before + {producer}, before);
    }

    /** A writer that is not in the map yet; the others stay in the state of their tracks. */
    method Insert(producer: string, writer: TrackWriter)
      requires Owned() && producer !in tracks && writer.Valid() && writer.Repr() !! Repr
      requires forall q :: q in tracks ==> Coupled(q)
      modifies this`tracks, this`Repr
      ensures Owned() && tracks == old(tracks)[producer := writer] && Repr == old(Repr) + writer.Repr()
      ensures writer.Valid() && writer.View() == old(writer.View())
      ensures forall q :: q in tracks && q != producer ==> Coupled(q)
    {
      hide TrackWriter.Valid, TrackWriter.View, TrackWriter.Repr;
      assert this !in writer.Repr();
      tracks := tracks[producer := writer];
      Repr := Repr + writer.Repr();
      forall q | q in tracks && q != producer ensures Coupled(q) {
        assert old(Coupled(q));
      }
    }

    /** Move the model on; `same` names the tracks it leaves as they are. */
    ghost method Follow(next: Room, all: set<string>, same: set<string>)
      requires Owned() && all <= tracks.Keys && same <= all
      requires forall q :: q in same ==>
                 && Coupled(q) && q in next.tracks && next.tracks[q] == model.tracks[q]
                 && next.tracks[q] < |next.heap| && next.heap[next.tracks[q]] == model.heap[model.tracks[q]]
      requires forall q :: q in all - same ==>
                 && tracks[q].Valid() && tracks[q].place == place
                 && q in next.tracks && next.tracks[q] < |next.heap| && next.heap[next.tracks[q]] == tracks[q].View()
      modifies this`model
      ensures Owned() && model == next && forall q :: q in all ==> Coupled(q)
    {
      hide TrackWriter.Valid, TrackWriter.View, TrackWriter.Repr;
      model := next;
      forall q | q in all ensures Coupled(q) {
        if q in same {
          assert old(Coupled(q));
        } else {
          assert q in all - same;
        }
      }
    }

    /** An active track is open between two calls, so a packet is never refused. */
    method WritePacket(producer: string, p: Packet, clock: Reads) returns (ok: bool)
      requires Valid()
      modifies Repr
      ensures ok
      ensures model == RunRoom(old(model), [Step.LookUp(producer, p), Step.Write(0, clock)])
      ensures tracks == old(tracks) && status == old(status) && completedTracks == old(completedTracks)
      ensures if status.Recording? && producer in tracks then OnlyWrote(producer, p, clock)
              else forall q :: q in tracks ==> tracks[q].View() == old(tracks[q].View())
      ensures Valid() && fresh(Repr - old(Repr))
    {
      hide RoomInv, TrackModel.WritePacket, RunRoom, Coupled, Wrote, TrackWriter.View;
      LookUpThenWrite(model, producer, p, clock);
      if !status.Recording? || producer !in tracks {
        return true;
      }
      ok := Deliver(producer, p, clock);
    }

    lemma Inside(p: string)
      requires Owned() && p in tracks
      ensures tracks[p].Repr() <= Repr && this !in tracks[p].Repr()
    {
      hide TrackWriter.Repr;
    }

    /** The writers of all producers but `p` are as they were. */
    twostate predicate OthersSame(p: string)
      requires tracks == old(tracks)
      reads this`tracks, tracks.Values, set q, o | q in tracks && o in tracks[q].Repr() :: o
    {
      forall q :: q in tracks && q != p ==>
        tracks[q].Repr() == old(tracks[q].Repr()) && tracks[q].Valid() == old(tracks[q].Valid())
        && tracks[q].View() == old(tracks[q].View())
    }

    /** Move the model on after an operation on the writer of one producer. */
    ghost method Settle(next: Room, producer: string)
      requires Owned() && Agrees() && Unlocked(model) && producer in tracks && producer in model.tracks
      requires forall q :: q in tracks && q != producer ==> Coupled(q)
      requires tracks[producer].Valid() && tracks[producer].place == place
      requires RoomInv(next) && OnlyMoved(model, next, model.tracks[producer], tracks[producer].View())
      modifies this`model
      ensures Valid() && model == next
    {
      hide RoomInv, Owned, TrackWriter.Valid, TrackWriter.View, TrackWriter.Repr;
      Follow(next, tracks.Keys, tracks.Keys - {producer});
    }

    /** The writer of `producer` has taken the packet, and the others are in the state they were in. */
    twostate predicate OnlyWrote(producer: string, p: Packet, clock: Reads)
      requires tracks == old(tracks) && producer in tracks
      reads this`tracks, tracks.Values
    {
      && Wrote(old(tracks[producer].View()), tracks[producer].View(), p, clock)
      && forall q :: q in tracks && q != producer ==> tracks[q].View() == old(tracks[q].View())
    }

    /** A packet for a track that has been found. */
    method Deliver(producer: string, p: Packet, clock: Reads) returns (ok: bool)
      requires Valid() && status.Recording? && producer in tracks
      modifies Repr
      ensures ok
      ensures model == RunRoom(old(model), [Step.LookUp(producer, p), Step.Write(0, clock)])
      ensures Valid() && tracks == old(tracks) && status == old(status) && fresh(Repr - old(Repr))
      ensures completedTracks == old(completedTracks) && OnlyWrote(producer, p, clock)
    {
      hide Wrote, RoomInv, TrackModel.WritePacket, TrackWriter.Valid, TrackWriter.View, TrackWriter.Repr, RunRoom, Owned;
      ghost var next := RunRoom(model, [Step.LookUp(producer, p), Step.Write(0, clock)]);
      DeliverFacts(model, producer, p, clock);
      tracks[producer].ClosedInView();
      assert Coupled(producer);
      Inside(producer);
      ok := WriteOne(producer, p, clock);
      assert forall q :: q in tracks && q != producer ==> Coupled(q) by {
        assert forall q :: q in tracks ==> old(Coupled(q));
      }
      hide Coupled, OnlyMoved;
      Settle(next, producer);
    }

    /** Write to one writer; the others are not affected. */
    method WriteOne(producer: string, p: Packet, clock: Reads) returns (ok: bool)
      requires Owned() && producer in tracks && tracks[producer].Valid()
      modifies this`Repr, tracks[producer].Repr()
      ensures Owned() && fresh(Repr - old(Repr)) && tracks == old(tracks)
      ensures ok == !old(tracks[producer].closed)
      ensures tracks[producer].Valid() && tracks[producer].View() == TrackModel.WritePacket(old(tracks[producer].View()), p, clock).0
      ensures ok ==> Wrote(old(tracks[producer].View()), tracks[producer].View(), p, clock)
      ensures OthersSame(producer)
    {
      hide Wrote, TrackModel.WritePacket, TrackWriter.Valid, TrackWriter.View, TrackWriter.Repr;
      ok := tracks[producer].WritePacket(p, clock);
      assert this !in tracks[producer].Repr();
      Repr := Repr + tracks[producer].Repr();
      OneTouched(producer);
    }

    /** One track of an external cut. */
    method RotateOne(producer: string, cutoff: Option<Time>, now: Time, ghost i: nat)
      requires Valid() && producer in tracks && producer in model.tracks
      requires i < |model.cuts| && model.cuts[i].cutoff == cutoff && model.tracks[producer] in model.cuts[i].left
      modifies Repr
      ensures model == Do(old(model), Step.Rotate(i, old(model).tracks[producer], now))
      ensures Valid() && tracks == old(tracks) && fresh(Repr - old(Repr))
    {
      hide RoomInv, WellFormed, TrackModel.RotateAt, TrackWriter.Valid, TrackWriter.View, TrackWriter.Repr, Owned, Do;
      ghost var h := model.tracks[producer];
      ghost var next := Do(model, Step.Rotate(i, h, now));
      RotateFacts(model, producer, i, now);
      assert Coupled(producer);
      Inside(producer);
      RotateWriter(producer, cutoff, now);
      assert forall q :: q in tracks && q != producer ==> Coupled(q) by {
        assert forall q :: q in tracks ==> old(Coupled(q));
      }
      hide Coupled, OnlyMoved;
      Settle(next, producer);
    }

    /** Cut one writer; the others are not affected. */
    method RotateWriter(producer: string, cutoff: Option<Time>, now: Time)
      requires Owned() && producer in tracks && tracks[producer].Valid()
      modifies this`Repr, tracks[producer].Repr()
      ensures Owned() && fresh(Repr - old(Repr)) && tracks == old(tracks)
      ensures tracks[producer].Valid() && tracks[producer].View() == TrackModel.RotateAt(old(tracks[producer].View()), cutoff, now)
      ensures OthersSame(producer)
    {
      hide TrackModel.RotateAt, TrackWriter.Valid, TrackWriter.View, TrackWriter.Repr;
      tracks[producer].RotateAt(cutoff, now);
      assert this !in tracks[producer].Repr();
      Repr := Repr + tracks[producer].Repr();
      OneTouched(producer);
    }

    /** A step of the model in which no writer takes part. */
    ghost method Advance(step: Step)
      requires Owned() && Agrees() && forall p :: p in tracks ==> Coupled(p)
      requires step.Collect? || step.StopLock?
      modifies this`model
      ensures model == Do(old(model), step)
      ensures Owned() && Agrees() && forall p :: p in tracks ==> Coupled(p)
    {
      hide RoomInv, TrackWriter.Valid, TrackWriter.View, TrackWriter.Repr;
      StepInv(model, step);
      model := Do(model, step);
    }

    /** Every active track has been cut, each at its own reading of the clock when no cutoff is given. */
    twostate predicate AllCut(cutoff: Option<Time>, clock: string -> Time)
      requires tracks == old(tracks)
      reads this`tracks, tracks.Values
    {
      forall p :: p in tracks ==> WasCut(old(tracks[p].View()), tracks[p].View(), cutoff, clock(p))
    }

    /** The loop: one track after the other. */
    method CutTracks(cutoff: Option<Time>, clock: string -> Time) returns (ghost steps: seq<Step>)
      requires Valid()
      modifies Repr
      ensures model == RunRoom(old(model), steps)
      ensures CutExcept(old(model), model, cutoff, clock, {})
      ensures Valid() && tracks == old(tracks) && fresh(Repr - old(Repr))
    {
      hide RoomInv, CutExcept, RunRoom, Coupled, Owned, Agrees, Valid;
      ghost var i := |model.cuts|;
      steps := [Collect(cutoff)];
      Collected(cutoff);
      var left := tracks.Keys;
      while left != {}
        invariant Valid() && left <= tracks.Keys && tracks == old(tracks) && fresh(Repr - old(Repr))
        invariant model == RunRoom(old(model), steps)
        invariant CutExcept(old(model), model, cutoff, clock, left) && Uncut(i, cutoff, left)
        decreases left
      {
        var p :| p in left;
        steps := CutNext(p, cutoff, clock, old(model), steps, i, left);
        left := left - {p};
      }
    }

    /** Cut every active track at one point of the timeline. */
    method RotateSegmentsAt(cutoff: Option<Time>, clock: string -> Time) returns (ghost steps: seq<Step>)
      requires Valid()
      modifies Repr
      ensures model == RunRoom(old(model), steps)
      ensures CutExcept(old(model), model, cutoff, clock, {})
      ensures Valid() && tracks == old(tracks) && fresh(Repr - old(Repr)) && AllCut(cutoff, clock)
    {
      hide RoomInv, RunRoom, Owned, Agrees, WasCut, TrackModel.RotateAt, TrackWriter.Valid, TrackWriter.View, TrackWriter.Repr;
      ghost var before := model;
      assert forall p :: p in tracks ==> Coupled(p);
      steps := CutTracks(cutoff, clock);
      forall p | p in tracks ensures WasCut(old(tracks[p].View()), tracks[p].View(), cutoff, clock(p)) {
        assert old(Coupled(p)) && Coupled(p);
        OpenHandle(before, p);
        CutValues(before.heap[before.tracks[p]], cutoff, clock(p));
      }
    }

    /** The tracks of the producers in `left` still wait for cut `i`. */
    ghost predicate Uncut(i: nat, cutoff: Option<Time>, left: set<string>)
      reads this
    {
      i < |model.cuts| && model.cuts[i].cutoff == cutoff
      && forall p :: p in left ==> p in model.tracks && model.tracks[p] in model.cuts[i].left
    }

    ghost method Collected(cutoff: Option<Time>)
      requires Valid()
      modifies this`model
      ensures model == RunRoom(old(model), [Collect(cutoff)])
      ensures forall clock :: CutExcept(old(model), model, cutoff, clock, tracks.Keys)
      ensures Valid() && Uncut(|old(model).cuts|, cutoff, tracks.Keys)
    {
      hide RoomInv, Coupled, Owned, Agrees;
      RunOne(model, Collect(cutoff));
      Advance(Collect(cutoff));
    }

    method CutNext(p: string, cutoff: Option<Time>, clock: string -> Time,
                   ghost start: Room, ghost done: seq<Step>, ghost i: nat, ghost left: set<string>)
      returns (ghost steps: seq<Step>)
      requires Valid() && p in left && left <= tracks.Keys && Uncut(i, cutoff, left)
      requires RoomInv(start) && Unlocked(start) && model == RunRoom(start, done) && CutExcept(start, model, cutoff, clock, left)
      modifies Repr
      ensures Valid() && tracks == old(tracks) && fresh(Repr - old(Repr)) && Uncut(i, cutoff, left - {p})
      ensures model == RunRoom(start, steps) && CutExcept(start, model, cutoff, clock, left - {p})
    {
      hide RoomInv, CutExcept, RunRoom, Coupled, Owned, Agrees, Valid, Do;
      SameTracks(start, model, cutoff, clock, left);
      HandlesDistinct(model);
      ghost var s := Step.Rotate(i, model.tracks[p], clock(p));
      RunAppend(start, done, s);
      steps := done + [s];
      RotateEffect(model, i, model.tracks[p], clock(p));
      RotateOne(p, cutoff, clock(p), i);
      CutOneMore(start, old(model), model, cutoff, clock, left, p);
    }

    /** The track of `producer` has been closed, listed as completed and dropped; the others are in the state they
        were in. */
    twostate predicate OnlyRemoved(producer: string, end: Option<Time>, closeNow: Time, endNow: Time)
      requires producer in old(tracks)
      reads this, tracks.Values
    {
      var n := |old(completedTracks)|;
      && tracks == old(tracks) - {producer} && |completedTracks| == n + 1 && completedTracks[..n] == old(completedTracks)
      && (exists t :: WasClosed(old(tracks[producer].View()), t, end, closeNow, endNow) && Describes(completedTracks[n], t))
      && forall q :: q in tracks ==> tracks[q].View() == old(tracks[q].View())
    }

    method RemoveTrack(producer: string, end: Option<Time>, closeNow: Time, endNow: Time)
      requires Valid()
      modifies Repr
      ensures model == RunRoom(old(model), [Step.RemoveTrack(producer, end, closeNow, endNow)])
      ensures if producer in old(tracks) then OnlyRemoved(producer, end, closeNow, endNow)
              else tracks == old(tracks) && completedTracks == old(completedTracks)
      ensures Valid() && fresh(Repr - old(Repr))
    {
      hide RoomInv, RunRoom, TrackModel.CloseAt, WasClosed, TrackWriter.Valid, TrackWriter.View, TrackWriter.Repr, Owned;
      ghost var before := model;
      if producer !in tracks {
        RemoveEffect(before, producer, end, closeNow, endNow);
        return;
      }
      assert forall q :: q in tracks ==> Coupled(q);
      ghost var t := RemovedValues(before, producer, end, closeNow, endNow);
      Detach(producer, end, closeNow, endNow);
      hide Describes;
      assert forall q :: q in tracks ==> old(Coupled(q)) && Coupled(q);
    }

    /** Close one writer; the others are not affected. */
    method CloseWriter(p: string, end: Option<Time>, closeNow: Time, endNow: Time) returns (info: TrackInfo)
      requires Owned() && p in tracks && tracks[p].Valid()
      modifies this`Repr, tracks[p].Repr()
      ensures Owned() && fresh(Repr - old(Repr))
      ensures tracks[p].Valid() && tracks[p].View() == TrackModel.CloseAt(old(tracks[p].View()), end, closeNow, endNow)
      ensures info == tracks[p].View().Info()
      ensures tracks == old(tracks) && model == old(model) && completedTracks == old(completedTracks)
      ensures status == old(status) && participants == old(participants)
      ensures OthersSame(p)
    {
      hide TrackModel.CloseAt, TrackWriter.Valid, TrackWriter.Repr, WasClosed;
      var packets, bytes := tracks[p].CloseAt(end, closeNow, endNow);
      info := tracks[p].Info();
      assert this !in tracks[p].Repr();
      Repr := Repr + tracks[p].Repr();
      OneTouched(p);
    }

    method Detach(producer: string, end: Option<Time>, closeNow: Time, endNow: Time)
      requires Valid() && producer in tracks
      modifies Repr
      ensures model == RunRoom(old(model), [Step.RemoveTrack(producer, end, closeNow, endNow)])
      ensures Valid() && fresh(Repr - old(Repr)) && tracks == old(tracks) - {producer}
    {
      hide RoomInv, TrackModel.CloseAt, TrackWriter.Valid, TrackWriter.View, TrackWriter.Repr, RunRoom;
      RemoveFacts(model, producer, end, closeNow, endNow);
      RunRoomInv(model, [Step.RemoveTrack(producer, end, closeNow, endNow)]);
      var info := CloseWriter(producer, end, closeNow, endNow);
      Forget(producer);
      Record(info, RunRoom(model, [Step.RemoveTrack(producer, end, closeNow, endNow)]), tracks.Keys);
      assert model.tracks.Keys == old(model).tracks.Keys - {producer};
    }

    /** Append to the completed list; the coupling of the tracks in `kept` carries over to the new model. */
    method Record(info: TrackInfo, ghost next: Room, ghost kept: set<string>)
      requires Owned() && kept <= tracks.Keys
      requires forall q :: q in kept ==>
                 && Coupled(q) && q in next.tracks && next.tracks[q] == model.tracks[q]
                 && next.tracks[q] < |next.heap| && next.heap[next.tracks[q]] == model.heap[model.tracks[q]]
      modifies this`completedTracks, this`model
      ensures Owned() && model == next && completedTracks == old(completedTracks) + [info]
      ensures forall q :: q in kept ==> Coupled(q)
    {
      hide TrackWriter.Valid, TrackWriter.View, TrackWriter.Repr;
      completedTracks := completedTracks + [info];
      model := next;
      forall q | q in kept ensures Coupled(q) {
        assert old(Coupled(q));
      }
    }

    method Forget(producer: string)
      requires Owned() && forall q :: q in tracks && q != producer ==> Coupled(q)
      modifies this`tracks
      ensures Owned() && tracks == old(tracks) - {producer} && tracks.Keys == old(tracks).Keys - {producer}
      ensures forall q :: q in tracks ==> Coupled(q)
    {
      hide TrackWriter.Valid, TrackWriter.View, TrackWriter.Repr;
      tracks := tracks - {producer};
      forall q | q in tracks ensures Coupled(q) {
        assert old(Coupled(q));
      }
    }

    /** Stop holds the room lock and has not closed every track yet. */
    ghost predicate ClosingTracks(): (closing: bool)
      reads this, Repr, tracks.Values
      ensures closing ==> this in Repr
    {
      && Owned() && Agrees() && model.stop.Closing?
      && forall p :: p in model.stop.left ==> p in tracks && Coupled(p) && model.stop.left[p] == model.tracks[p]
    }

    /** One round of Stop's loop. */
    method CloseOne(producer: string, closeNow: Time, endNow: Time)
      requires ClosingTracks() && producer in model.stop.left
      modifies Repr
      ensures model == Do(old(model), StopClose(producer, closeNow, endNow))
      ensures model.stop.Closing? && model.stop.left == old(model).stop.left - {producer}
      ensures ClosingTracks() && tracks == old(tracks) && fresh(Repr - old(Repr))
    {
      hide RoomInv, WellFormed, TrackModel.CloseAt, TrackWriter.Valid, TrackWriter.View, TrackWriter.Repr, Owned, Do;
      ghost var next := Do(model, StopClose(producer, closeNow, endNow));
      ghost var kept := model.stop.left.Keys - {producer};
      assert Owned() && Agrees() && forall q :: q in model.stop.left ==> q in tracks && Coupled(q) && model.stop.left[q] == model.tracks[q];
      hide ClosingTracks;
      StopCloseFacts(model, producer, closeNow, endNow);
      Inside(producer);
      hide Coupled;
      var info := CloseKeeping(producer, None, closeNow, endNow, kept);
      assert next.completed == completedTracks + [info];
      RecordClosed(info, next, kept);
    }

    /** Close one writer; the others stay in the state of their tracks. */
    method CloseKeeping(producer: string, end: Option<Time>, closeNow: Time, endNow: Time, ghost kept: set<string>)
      returns (info: TrackInfo)
      requires Owned() && producer in tracks && kept <= tracks.Keys && producer !in kept && Coupled(producer)
      requires forall q :: q in kept ==> Coupled(q)
      modifies this`Repr, tracks[producer].Repr()
      ensures Owned() && fresh(Repr - old(Repr)) && tracks == old(tracks) && model == old(model)
      ensures completedTracks == old(completedTracks) && status == old(status) && participants == old(participants)
      ensures model.heap[model.tracks[producer]].Shaped()
      ensures info == TrackModel.CloseAt(model.heap[model.tracks[producer]], end, closeNow, endNow).Info()
      ensures forall q :: q in kept ==> Coupled(q)
    {
      hide TrackModel.CloseAt, TrackWriter.Valid, TrackWriter.View, TrackWriter.Repr, Owned;
      tracks[producer].ViewShaped();
      info := CloseWriter(producer, end, closeNow, endNow);
      assert forall q :: q in kept ==> old(Coupled(q));
    }

    /** Move the model on after one writer was closed inside Stop's loop. */
    method RecordClosed(info: TrackInfo, ghost next: Room, ghost kept: set<string>)
      requires Owned() && Agrees() && kept <= tracks.Keys && forall q :: q in kept ==> Coupled(q)
      requires RoomInv(next) && SameRoom(model, next) && next.tracks == model.tracks && next.completed == completedTracks + [info]
      requires next.stop.Closing? && next.stop.left.Keys == kept
      requires forall q :: q in kept ==>
                 && q in next.tracks && next.stop.left[q] == next.tracks[q]
                 && next.tracks[q] < |next.heap| && next.heap[next.tracks[q]] == model.heap[model.tracks[q]]
      modifies this`completedTracks, this`model
      ensures model == next && ClosingTracks()
    {
      hide RoomInv, Owned, Coupled;
      Record(info, next, kept);
    }

    /** Payload bytes of active tracks plus file bytes of completed ones. */
    method Stats() returns (stats: Stats)
      requires Valid()
      ensures stats == StatsOf(model)
    {
      hide RoomInv, Owned, Coupled, SumLive, CompletedBytes;
      var active := ActivePayload();
      var completed := FileBytes(completedTracks);
      assert |tracks| == |tracks.Keys| == |model.tracks.Keys| == |model.tracks|;
      stats := RoomModel.Stats.Stats(|tracks| + |completedTracks|, |participants|, active + completed);
    }

    method ActivePayload() returns (total: int)
      requires Valid()
      ensures total == SumLive(model.heap, model.tracks.Values, Payload)
    {
      hide RoomInv, TrackWriter.Valid, TrackWriter.Repr, Owned, SumLive;
      HandlesDistinct(model);
      SumLiveNothing(model.heap, Payload);
      total := 0;
      var left := tracks.Keys;
      ghost var counted: set<nat> := {};
      while left != {}
        invariant left <= tracks.Keys && counted == set p | p in tracks && p !in left :: model.tracks[p]
        invariant total == SumLive(model.heap, counted, Payload)
        decreases left
      {
        var p :| p in left;
        SumLiveAdd(model.heap, counted, model.tracks[p], Payload);
        total := total + tracks[p].totalBytes;
        counted := counted + {model.tracks[p]};
        left := left - {p};
      }
      assert counted == model.tracks.Values;
    }

    method BeginStop()
      requires Valid() && status.Recording?
      modifies this`status, this`model
      ensures model == RunRoom(old(model), [StopMark, StopLock])
      ensures ClosingTracks() && model.stop.Closing? && model.stop.left.Keys == tracks.Keys
    {
      hide RoomInv, TrackWriter.Valid, TrackWriter.View, TrackWriter.Repr, RunRoom, Do;
      assert Owned() && Agrees() && forall q :: q in tracks ==> Coupled(q) && model.tracks[q] < |model.heap|;
      hide Owned, Coupled, Valid;
      StopBegins(model);
      RunRoomInv(model, [StopMark, StopLock]);
      Follow(RunRoom(model, [StopMark, StopLock]), tracks.Keys, tracks.Keys);
      status := Stopping;
    }

    method EndClosing()
      requires ClosingTracks() && model.stop == Closing(map[])
      modifies this`tracks, this`model
      ensures model == Do(old(model), StopUnlock)
      ensures Valid() && tracks == map[] && model.stop == TracksClosed
    {
      hide RoomInv, TrackWriter.Valid, TrackWriter.View, TrackWriter.Repr, Do;
      StopUnlocks(model);
      model := Do(model, StopUnlock);
      tracks := map[];
    }

    /** The metadata of the current state: active tracks in some order, then the completed ones. */
    method BuildMetadata() returns (metadata: Metadata, ghost order: seq<string>)
      requires Valid()
      ensures (forall i, j :: 0 <= i < j < |order| ==> order[i] != order[j]) && (forall p :: p in order <==> p in tracks)
      ensures |order| == |tracks|
      ensures metadata.tracks == InfosOf(order) + completedTracks
      ensures RoomModel.Stats.Stats(metadata.trackCount, metadata.peerCount, metadata.totalBytes) == StatsOf(model)
    {
      hide RoomInv, Owned, Coupled, Agrees, StatsOf;
      var infos := [];
      order := [];
      var left := tracks.Keys;
      while left != {}
        invariant left <= tracks.Keys && (forall p :: p in order <==> p in tracks && p !in left)
        invariant |order| + |left| == |tracks.Keys|
        invariant forall i, j :: 0 <= i < j < |order| ==> order[i] != order[j]
        invariant infos == InfosOf(order)
        decreases left
      {
        var p :| p in left;
        infos := infos + [tracks[p].Info()];
        order := order + [p];
        assert order[..|order| - 1] + [p] == order;
        left := left - {p};
      }
      infos := infos + completedTracks;
      var stats := Stats();
      metadata := Metadata(infos, stats.trackCount, stats.peerCount, stats.totalBytes);
    }

    ghost function InfosOf(order: seq<string>): seq<TrackInfo>
      requires forall p :: p in order ==> p in tracks
      reads this`tracks, tracks.Values
    {
      if order == [] then []
      else InfosOf(order[..|order| - 1]) + [tracks[order[|order| - 1]].Info()]
    }

    /** Stop with no other caller in between. `finalized` is the answer of storage. */
    method Stop(closeNow: string -> Time, endNow: string -> Time, finalized: bool)
      returns (ok: bool, metadata: Option<Metadata>, ghost steps: seq<Step>)
      requires Valid()
      modifies Repr
      ensures model == RunRoom(old(model), steps)
      ensures if old(status.Recording?)
              then ok == finalized && tracks == map[] && metadata.Some? && model.stop == Finished(metadata.value)
                   && status == (if finalized then Completed else Failed)
              else !ok && metadata == None && model == old(model)
      ensures Valid() && fresh(Repr - old(Repr))
    {
      hide RoomInv, RunRoom, Coupled, Owned, Agrees;
      if !status.Recording? {
        assert RunRoom(model, []) == model by { RunNothing(model); }
        return false, None, [];
      }
      steps := CloseAll(closeNow, endNow);
      var m, order := BuildMetadata();
      assert order == [] && InfosOf(order) + completedTracks == completedTracks;
      RunConcat(old(model), steps, [StopSnapshot, StopMetadata, StopFinish(finalized)]);
      steps := steps + [StopSnapshot, StopMetadata, StopFinish(finalized)];
      Finish(m, finalized);
      ok, metadata := finalized, Some(m);
    }

    /** Stop up to the point where the room lock is released. */
    method CloseAll(closeNow: string -> Time, endNow: string -> Time) returns (ghost steps: seq<Step>)
      requires Valid() && status.Recording?
      modifies Repr
      ensures model == RunRoom(old(model), steps)
      ensures Valid() && tracks == map[] && model.stop == TracksClosed && fresh(Repr - old(Repr))
    {
      hide RoomInv, RunRoom, Valid, ClosingTracks, Do;
      BeginStop();
      steps := [StopMark, StopLock];
      var left := tracks.Keys;
      while left != {}
        invariant ClosingTracks() && model.stop.Closing? && model.stop.left.Keys == left && fresh(Repr - old(Repr))
        invariant model == RunRoom(old(model), steps)
        decreases left
      {
        var p :| p in left;
        RunAppend(old(model), steps, StopClose(p, closeNow(p), endNow(p)));
        steps := steps + [StopClose(p, closeNow(p), endNow(p))];
        CloseOne(p, closeNow(p), endNow(p));
        left := left - {p};
      }
      RunAppend(old(model), steps, StopUnlock);
      steps := steps + [StopUnlock];
      EndClosing();
    }

    method Finish(m: Metadata, finalized: bool)
      requires Valid() && model.stop == TracksClosed && tracks == map[] && m.tracks == completedTracks
      requires RoomModel.Stats.Stats(m.trackCount, m.peerCount, m.totalBytes) == StatsOf(model)
      modifies this`status, this`model
      ensures model == RunRoom(old(model), [StopSnapshot, StopMetadata, StopFinish(finalized)])
      ensures Valid() && tracks == map[] && model.stop == Finished(m) && status == if finalized then Completed else Failed
    {
      hide RoomInv, TrackWriter.Valid, TrackWriter.View, TrackWriter.Repr, RunRoom;
      StopFinishes(model, finalized);
      RunRoomInv(model, [StopSnapshot, StopMetadata, StopFinish(finalized)]);
      status := if finalized then Completed else Failed;
      model := RunRoom(model, [StopSnapshot, StopMetadata, StopFinish(finalized)]);
    }
  }
}
