/** Manager as the code has it: a map from room to its recording, updated in place. */
module Managers {
  import opened Brtp
  import opened TrackModel
  import opened TrackWriters
  import opened RoomModel
  import opened RoomProofs
  import opened Rooms

  /** How a recording stands after its Stop: completed, or failed when finalising failed. */
  function StatusAfterStop(finalized: bool): Status {
    if finalized then Completed else Failed
  }

  /** A recording after Stop, which found it in state `before`: its model went on from there to the end,
      and its status is what finalising decided. */
  ghost predicate Stopped(rec: RoomRecording, before: Room, finalized: bool)
    reads rec
  {
    && (exists steps :: rec.model == RunRoom(before, steps))
    && rec.model.stop.Finished? && rec.tracks == map[] && rec.completedTracks == rec.model.completed
    && rec.status == rec.model.status == StatusAfterStop(finalized)
  }

  /** The recordings are separate objects within `all`. */
  ghost predicate Separate(recs: map<string, RoomRecording>, all: set<object>)
    reads recs.Values
  {
    && (forall x :: x in recs ==>
          && recs[x] in recs[x].Repr && recs[x].Repr <= all
          && forall p :: p in recs[x].tracks ==> recs[x].tracks[p] in recs[x].Repr)
    && (forall x, y :: x in recs && y in recs && x != y ==> recs[x].Repr !! recs[y].Repr)
  }

  ghost predicate Ready(recs: map<string, RoomRecording>, all: set<object>)
    reads recs.Values, all
  {
    Separate(recs, all) && forall x :: x in recs ==> recs[x].Valid() && recs[x].status.Recording?
  }

  /** `rec` shares nothing with the recordings in `recs`. */
  ghost predicate Apart(rec: RoomRecording, recs: map<string, RoomRecording>)
    reads rec, recs.Values
  {
    forall x :: x in recs ==> recs[x].Repr !! rec.Repr
  }

  lemma Withdraw(recs: map<string, RoomRecording>, all: set<object>, x: string)
    requires Ready(recs, all) && x in recs
    ensures Ready(recs - {x}, all) && Apart(recs[x], recs - {x})
    ensures recs[x].Valid() && recs[x].status.Recording? && recs[x].Repr <= all
  {
    hide RoomInv, RoomRecording.Valid;
  }

  lemma Restore(recs: map<string, RoomRecording>, all: set<object>, x: string)
    requires x in recs && Ready(recs - {x}, all) && Apart(recs[x], recs - {x})
    requires recs[x].Valid() && recs[x].status.Recording?
    ensures Ready(recs, all + recs[x].Repr)
  {
    hide RoomInv, RoomRecording.Valid;
    recs[x].TracksOwned();
    assert recs[x] in recs[x].Repr;
    assert forall y :: y in recs && y != x ==> y in recs - {x} && (recs - {x})[y] == recs[y];
  }

  /** Stop one recording; the others do not notice. */
  method StopApart(rec: RoomRecording, closeNow: string -> Time, endNow: string -> Time, finalized: bool,
                   ghost others: map<string, RoomRecording>, ghost all: set<object>) returns (ok: bool)
    requires rec.Valid() && rec.status.Recording? && Ready(others, all) && Apart(rec, others)
    modifies rec.Repr
    ensures ok == finalized && Stopped(rec, old(rec.model), finalized) && fresh(rec.Repr - old(rec.Repr))
    ensures forall x :: x in others ==> others[x].model == old(others[x].model) && others[x].Repr == old(others[x].Repr)
    ensures Ready(others, all) && Apart(rec, others)
  {
    hide RoomInv, RoomRecording.Valid;
    var stopped, metadata, steps := rec.Stop(closeNow, endNow, finalized);
    rec.FollowsModel();
    ok := stopped;
  }

  /** Write to one recording; the others do not notice. */
  method WriteApart(rec: RoomRecording, producer: string, p: Packet, clock: Reads,
                    ghost others: map<string, RoomRecording>, ghost all: set<object>) returns (ok: bool)
    requires rec.Valid() && rec.status.Recording? && Ready(others, all) && Apart(rec, others)
    modifies rec.Repr
    ensures ok && rec.model == RunRoom(old(rec.model), [Step.LookUp(producer, p), Step.Write(0, clock)])
    ensures rec.Valid() && rec.status.Recording? && fresh(rec.Repr - old(rec.Repr))
    ensures forall x :: x in others ==> others[x].model == old(others[x].model)
    ensures Ready(others, all) && Apart(rec, others)
  {
    hide RoomInv, RoomRecording.Valid, RunRoom, RoomRecording.OnlyWrote, TrackWriter.View;
    ok := rec.WritePacket(producer, p, clock);
  }

  /** Some recordings are stopped already, the ones in `left` are still as they were. */
  ghost predicate Progress(done: map<string, RoomRecording>, left: map<string, RoomRecording>,
                           before: map<string, Room>, finalized: string -> bool)
    reads done.Values, left.Values
  {
    && (forall y :: y in done ==> y in before && Stopped(done[y], before[y], finalized(y)))
    && (forall y, x :: y in done && x in left ==> done[y] !in left[x].Repr)
    && (forall x :: x in left ==> x in before && left[x].model == before[x])
  }

  /** `start` is divided between the stopped recordings and the others. */
  ghost predicate Divided(start: map<string, RoomRecording>, done: map<string, RoomRecording>, left: map<string, RoomRecording>) {
    && done.Keys + left.Keys == start.Keys && done.Keys !! left.Keys
    && (forall x :: x in done ==> done[x] == start[x])
    && (forall x :: x in left ==> left[x] == start[x])
  }

  lemma OneMoreDone(start: map<string, RoomRecording>, done: map<string, RoomRecording>, left: map<string, RoomRecording>,
                    x: string)
    requires Divided(start, done, left) && x in left
    ensures Divided(start, done[x := left[x]], left - {x})
  {
  }

  lemma NothingDone(recs: map<string, RoomRecording>, done: map<string, RoomRecording>, before: map<string, Room>,
                    finalized: string -> bool)
    requires done == map[] && before.Keys == recs.Keys && forall x :: x in recs ==> before[x] == recs[x].model
    ensures Divided(recs, done, recs) && Progress(done, recs, before, finalized)
  {
    hide Stopped;
  }

  lemma AllDone(start: map<string, RoomRecording>, done: map<string, RoomRecording>, left: map<string, RoomRecording>,
                before: map<string, Room>, finalized: string -> bool)
    requires Divided(start, done, left) && left == map[] && Progress(done, left, before, finalized)
    ensures done.Keys == start.Keys && forall x :: x in start ==> x in before && Stopped(start[x], before[x], finalized(x))
  {
    hide Stopped;
  }

  /** One round of stopping everything. */
  method StopNext(x: string, closeNow: string -> Time, endNow: string -> Time, finalized: string -> bool,
                  ghost done: map<string, RoomRecording>, left: map<string, RoomRecording>, ghost before: map<string, Room>,
                  ghost all: set<object>)
    returns (ok: bool)
    requires x in left && Ready(left, all) && Progress(done, left, before, finalized)
    modifies left[x].Repr
    ensures ok == finalized(x) && Ready(left - {x}, all) && Progress(done[x := left[x]], left - {x}, before, finalized)
  {
    hide RoomInv, RoomRecording.Valid, Separate, Stopped, Ready, RunRoom, Do;
    Withdraw(left, all, x);
    var rec := left[x];
    assert forall y :: y in left - {x} ==> rec !in left[y].Repr;
    hide Apart;
    ok := StopApart(rec, closeNow, endNow, finalized(x), left - {x}, all);
  }

  class Manager {
    const segmentDuration: int
    const segmentMaxBytes: int

    var rooms: map<string, RoomRecording>

    ghost var Repr: set<object>

    /** Every recording in the map records, and none shares anything with another. */
    ghost predicate Valid()
      reads this, Repr, rooms.Values
    {
      this in Repr && Ready(rooms, Repr - {this})
    }

    constructor (segmentDuration: int, segmentMaxBytes: int)
      ensures Valid() && fresh(Repr) && rooms == map[]
      ensures this.segmentDuration == segmentDuration && this.segmentMaxBytes == segmentMaxBytes
    {
      this.segmentDuration, this.segmentMaxBytes := segmentDuration, segmentMaxBytes;
      rooms := map[];
      Repr := {this};
    }

    ghost function Models(): map<string, Room>
      reads this`rooms, rooms.Values
    {
      map x | x in rooms :: rooms[x].model
    }

    lemma RoomsInside()
      requires Valid()
      ensures forall x :: x in rooms ==> rooms[x].Repr <= Repr
    {
      hide RoomInv, RoomRecording.Valid;
    }

    /** `created` is the answer of storage when the recording is set up there; `id` is a fresh uuid. */
    method StartRecording(room: string, id: string, policy: Policy, created: bool) returns (ok: bool)
      requires Valid()
      modifies this
      ensures ok <==> room !in old(rooms) && created
      ensures if !ok then rooms == old(rooms)
              else
                && rooms.Keys == old(rooms).Keys + {room} && (forall x :: x in old(rooms) ==> rooms[x] == old(rooms)[x])
                && fresh(rooms[room]) && rooms[room].place == Place(room, id)
                && rooms[room].model == NewRoom(policy, segmentDuration, segmentMaxBytes)
      ensures Valid() && fresh(Repr - old(Repr))
    {
      hide RoomInv, RoomRecording.Valid;
      if room in rooms || !created {
        return false;
      }
      var rec := new RoomRecording(policy, Place(room, id), segmentDuration, segmentMaxBytes);
      hide Ready, Apart;
      Enter(room, rec);
      ok := true;
    }

    /** Enter a new recording in the map. */
    method Enter(room: string, rec: RoomRecording)
      requires Valid() && room !in rooms && rec.Valid() && rec.status.Recording? && rec.Repr !! Repr
      modifies this
      ensures rooms == old(rooms)[room := rec] && Repr == old(Repr) + rec.Repr
      ensures Valid()
    {
      hide RoomInv, RoomRecording.Valid;
      ghost var others, all := rooms, Repr - {this};
      assert Apart(rec, others);
      hide Ready, Apart;
      rooms := rooms[room := rec];
      assert rooms - {room} == others;
      assert Ready(others, all);
      Restore(rooms, all, room);
      Repr := Repr + rec.Repr;
      assert Repr - {this} == all + rec.Repr;
    }

    /** The recording leaves the map before its Stop runs, so it is gone even when finalising fails. */
    method StopRecording(room: string, closeNow: string -> Time, endNow: string -> Time, finalized: bool) returns (ok: bool)
      requires Valid()
      modifies this`rooms, if room in rooms then rooms[room].Repr else {}
      ensures ok <==> room in old(rooms) && finalized
      ensures rooms == old(rooms) - {room}
      ensures room in old(rooms) ==>
                Stopped(old(rooms)[room], old(rooms[room].model), finalized)
      ensures forall x :: x in rooms ==> x in old(rooms) && rooms[x].model == old(rooms[x].model)
      ensures Valid() && Repr == old(Repr)
    {
      hide RoomInv, RoomRecording.Valid, Separate, Apart, Ready, Stopped;
      if room !in rooms {
        assert rooms - {room} == rooms;
        return false;
      }
      var rec := Take(room);
      ok := StopApart(rec, closeNow, endNow, finalized, rooms, Repr - {this});
    }

    /** StopRecording for a caller that stops several rooms. */
    method StopOneOf(room: string, closeNow: string -> Time, endNow: string -> Time, finalized: string -> bool,
                     ghost done: map<string, RoomRecording>, ghost before: map<string, Room>) returns (ok: bool)
      requires Valid() && room in rooms && Progress(done, rooms, before, finalized)
      modifies this`rooms, rooms[room].Repr
      ensures ok == finalized(room) && rooms == old(rooms) - {room} && Repr == old(Repr)
      ensures Progress(done[room := old(rooms)[room]], rooms, before, finalized)
      ensures Valid()
    {
      hide RoomInv, RoomRecording.Valid, Separate, Apart, Progress, Stopped;
      var left := rooms;
      Withdraw(left, Repr - {this}, room);
      rooms := rooms - {room};
      ok := StopNext(room, closeNow, endNow, finalized, done, left, before, Repr - {this});
    }

    method Take(room: string) returns (rec: RoomRecording)
      requires Valid() && room in rooms
      modifies this`rooms
      ensures rec == old(rooms)[room] && rooms == old(rooms) - {room}
      ensures rec.Valid() && rec.status.Recording? && rec.Repr <= Repr - {this} && Apart(rec, rooms)
      ensures Valid()
    {
      hide RoomInv, RoomRecording.Valid, Apart;
      Withdraw(rooms, Repr - {this}, room);
      rec := rooms[room];
      rooms := rooms - {room};
    }

    /** A packet for a room without a recording is dropped without an error. */
    method WritePacket(room: string, producer: string, p: Packet, clock: Reads) returns (ok: bool)
      requires Valid()
      modifies Repr
      ensures ok && rooms == old(rooms)
      ensures room in rooms ==>
                rooms[room].model == RunRoom(old(rooms[room].model), [Step.LookUp(producer, p), Step.Write(0, clock)])
      ensures forall x :: x in rooms && x != room ==> rooms[x].model == old(rooms[x].model)
      ensures Valid() && fresh(Repr - old(Repr))
    {
      hide Valid, RunRoom;
      if room !in rooms {
        return true;
      }
      ok := WriteIn(room, producer, p, clock);
    }

    method WriteIn(room: string, producer: string, p: Packet, clock: Reads) returns (ok: bool)
      requires Valid() && room in rooms
      modifies Repr
      ensures ok && rooms == old(rooms)
      ensures rooms[room].model == RunRoom(old(rooms[room].model), [Step.LookUp(producer, p), Step.Write(0, clock)])
      ensures forall x :: x in rooms && x != room ==> rooms[x].model == old(rooms[x].model)
      ensures Valid() && fresh(Repr - old(Repr))
    {
      hide RoomInv, RoomRecording.Valid, RunRoom, Separate;
      ghost var others, all := rooms - {room}, Repr - {this};
      var rec := rooms[room];
      Withdraw(rooms, all, room);
      assert forall x :: x in rooms && x != room ==> x in others && others[x] == rooms[x];
      hide Ready, Apart;
      ok := WriteApart(rec, producer, p, clock, others, all);
      Restore(rooms, all, room);
      Repr := Repr + rec.Repr;
      assert Repr - {this} == all + rec.Repr;
    }

    /** Clear the map first, then stop what was in it, one after the other. */
    method Shutdown(closeNow: string -> Time, endNow: string -> Time, finalized: string -> bool) returns (ok: bool)
      requires Valid()
      modifies Repr
      ensures rooms == map[]
      ensures forall x :: x in old(rooms) ==> Stopped(old(rooms)[x], old(rooms[x].model), finalized(x))
      ensures ok <==> forall x :: x in old(rooms) ==> finalized(x)
      ensures Valid()
    {
      hide RoomInv, RoomRecording.Valid, Separate, Apart, Stopped, Ready, Progress, Divided;
      ghost var start, all, before := rooms, Repr - {this}, Models();
      var left := rooms;
      ghost var done: map<string, RoomRecording> := map[];
      NothingDone(left, done, before, finalized);
      rooms := map[];
      ok := true;
      while left != map[]
        invariant rooms == map[] && Repr == old(Repr) && Ready(left, all)
        invariant Progress(done, left, before, finalized) && Divided(start, done, left)
        invariant ok <==> forall x :: x in done ==> finalized(x)
        decreases left.Keys
      {
        var x :| x in left;
        Withdraw(left, all, x);
        OneMoreDone(start, done, left, x);
        var stopped := StopNext(x, closeNow, endNow, finalized, done, left, before, all);
        done := done[x := left[x]];
        left := left - {x};
        ok := ok && stopped;
      }
      AllDone(start, done, left, before, finalized);
    }
  }
}
