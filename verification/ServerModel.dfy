/** The whole service: the bookkeeping of Dispatch together with the recordings it starts and stops,
    each taking the steps of RoomModel at any moment in between. */
module ServerModel {
  import opened Brtp
  import opened TrackModel
  import opened TrackProofs
  import opened TrackLaws
  import opened RoomModel
  import opened RoomProofs
  import opened RoomTheorems
  import opened RoomStore
  import opened RoomLaws
  import opened Dispatch

  datatype Server = Server(book: Book, bodies: seq<Room>)

  datatype Action =
    | Begin(room: string, policy: Policy, segmentDuration: int, segmentMaxBytes: int)
    | Control(event: Event)
    | Inside(rec: nat, step: Step)

  function NewServer(): Server {
    Server(NewBook(), [])
  }

  /** Some run of the room's own steps leads to this state. */
  ghost predicate Grown(r: Room) {
    exists steps :: r == ReachedRoom(r.policy, r.segmentDuration, r.segmentMaxBytes, steps)
  }

  /** A recording records exactly until its Stop is called. */
  ghost predicate ServerInv(s: Server) {
    && BookInv(s.book) && |s.bodies| == |s.book.roomOf|
    && forall h :: 0 <= h < |s.bodies| ==>
         Grown(s.bodies[h]) && (s.book.stopCalls[h] == 0 <==> s.bodies[h].status.Recording?)
  }

  /** The recording whose Stop is called by an event. */
  predicate Calls(b: Book, e: Event, h: nat) {
    (e.Call? && b.at.Calling? && b.at.rec == h) || (e == ShutdownCall(h) && h in b.closing)
  }

  /** Stop returns when it has set the final status, whether finalising worked or not. */
  predicate Blocked(s: Server, e: Event) {
    e.Return? && s.book.at.Waiting? && s.book.at.rec < |s.bodies| && !s.bodies[s.book.at.rec].stop.Finished?
  }

  function DoBegin(s: Server, room: string, policy: Policy, segmentDuration: int, segmentMaxBytes: int): Server {
    var b := DoStart(s.book, room);
    if b == s.book then s else Server(b, s.bodies + [NewRoom(policy, segmentDuration, segmentMaxBytes)])
  }

  /** A call of Stop marks the recording at once and does the rest in steps of its own. */
  function DoControl(s: Server, e: Event): Server {
    if e.StartRequest? || Blocked(s, e) then s
    else Server(React(s.book, e),
                seq(|s.bodies|, h requires 0 <= h < |s.bodies| => if Calls(s.book, e, h) then DoStopMark(s.bodies[h]) else s.bodies[h]))
  }

  /** Only a call of Stop marks a recording; all its other steps may happen at any moment. */
  ghost function DoInside(s: Server, rec: nat, step: Step): Server {
    if rec >= |s.bodies| || step.StopMark? then s
    else s.(bodies := s.bodies[rec := Do(s.bodies[rec], step)])
  }

  ghost function Act(s: Server, a: Action): Server {
    match a
    case Begin(room, policy, segmentDuration, segmentMaxBytes) => DoBegin(s, room, policy, segmentDuration, segmentMaxBytes)
    case Control(e) => DoControl(s, e)
    case Inside(rec, step) => DoInside(s, rec, step)
  }

  lemma GrownInv(r: Room)
    requires Grown(r)
    ensures RoomInv(r)
  {
    hide RoomInv;
    var steps :| r == ReachedRoom(r.policy, r.segmentDuration, r.segmentMaxBytes, steps);
    ReachedInv(r.policy, r.segmentDuration, r.segmentMaxBytes, steps);
  }

  lemma NewIsGrown(policy: Policy, segmentDuration: int, segmentMaxBytes: int)
    ensures Grown(NewRoom(policy, segmentDuration, segmentMaxBytes))
  {
    hide RoomInv;
    assert NewRoom(policy, segmentDuration, segmentMaxBytes) == ReachedRoom(policy, segmentDuration, segmentMaxBytes, []);
  }

  lemma StepGrows(r: Room, step: Step)
    requires Grown(r)
    ensures RoomInv(r) && Grown(Do(r, step))
  {
    hide RoomInv, Do;
    GrownInv(r);
    StepKeepsConfig(r, step);
    var steps :| r == ReachedRoom(r.policy, r.segmentDuration, r.segmentMaxBytes, steps);
    NewRoomInv(r.policy, r.segmentDuration, r.segmentMaxBytes);
    RunAppend(NewRoom(r.policy, r.segmentDuration, r.segmentMaxBytes), steps, step);
    var r' := Do(r, step);
    assert r' == ReachedRoom(r'.policy, r'.segmentDuration, r'.segmentMaxBytes, steps + [step]);
  }

  /** Marking is the only way out of Recording. */
  lemma RecordingEndsByMark(r: Room, step: Step)
    requires RoomInv(r)
    ensures !step.StopMark? ==> (Do(r, step).status.Recording? <==> r.status.Recording?)
    ensures r.status.Recording? ==> DoStopMark(r) == Do(r, StopMark) && !DoStopMark(r).status.Recording?
  {
    hide HeapInv, LiveInv, CompletedInv, LogInv, CountInv, TracksCounted,
         TrackInv, WritePacket, TrackModel.RotateAt, CloseAt, NewTrack, StatsOf, ActiveInfos, ConfigOf;
  }

  lemma InsideKeeps(s: Server, rec: nat, step: Step)
    requires ServerInv(s)
    ensures ServerInv(DoInside(s, rec, step))
  {
    hide RoomInv, Do, Grown, BookInv;
    if rec < |s.bodies| && !step.StopMark? {
      StepGrows(s.bodies[rec], step);
      RecordingEndsByMark(s.bodies[rec], step);
    }
  }

  lemma BeginKeeps(s: Server, room: string, policy: Policy, segmentDuration: int, segmentMaxBytes: int)
    requires ServerInv(s)
    ensures ServerInv(DoBegin(s, room, policy, segmentDuration, segmentMaxBytes))
  {
    hide BookInv, Grown;
    ReactKeeps(s.book, StartRequest(room));
    NewIsGrown(policy, segmentDuration, segmentMaxBytes);
  }

  /** Counting calls: an event adds one to the count of the recording it calls Stop on, and only to that. */
  lemma CountsFollowCalls(b: Book, e: Event)
    requires BookInv(b) && !e.StartRequest?
    ensures |React(b, e).roomOf| == |b.roomOf|
    ensures forall h :: 0 <= h < |b.roomOf| ==>
              React(b, e).stopCalls[h] == b.stopCalls[h] + (if Calls(b, e, h) then 1 else 0)
              && (Calls(b, e, h) ==> b.stopCalls[h] == 0)
  {
    hide SessionInv, LoopInv;
  }

  lemma ControlKeeps(s: Server, e: Event)
    requires ServerInv(s)
    ensures ServerInv(DoControl(s, e))
  {
    hide BookInv, Grown, RoomInv, DoStopMark, Do, React, Calls;
    if !e.StartRequest? && !Blocked(s, e) {
      ReactKeeps(s.book, e);
      CountsFollowCalls(s.book, e);
      var s' := DoControl(s, e);
      forall h | 0 <= h < |s.bodies|
        ensures Grown(s'.bodies[h]) && (s'.book.stopCalls[h] == 0 <==> s'.bodies[h].status.Recording?)
      {
        StepGrows(s.bodies[h], StopMark);
        RecordingEndsByMark(s.bodies[h], StopMark);
      }
    }
  }

  lemma ActKeeps(s: Server, a: Action)
    requires ServerInv(s)
    ensures ServerInv(Act(s, a))
  {
    hide ServerInv, DoInside, DoBegin, DoControl;
    match a
    case Begin(room, policy, segmentDuration, segmentMaxBytes) => BeginKeeps(s, room, policy, segmentDuration, segmentMaxBytes);
    case Control(e) => ControlKeeps(s, e);
    case Inside(rec, step) => InsideKeeps(s, rec, step);
  }

  lemma NewServerInv()
    ensures ServerInv(NewServer())
  {
    NewBookInv();
  }

  ghost function RunServer(s: Server, actions: seq<Action>): Server
    decreases |actions|
  {
    if actions == [] then s else RunServer(Act(s, actions[0]), actions[1..])
  }

  lemma {:induction false} RunServerKeeps(s: Server, actions: seq<Action>)
    requires ServerInv(s)
    ensures ServerInv(RunServer(s, actions))
    decreases |actions|
  {
    hide ServerInv, Act;
    if actions != [] {
      ActKeeps(s, actions[0]);
      RunServerKeeps(Act(s, actions[0]), actions[1..]);
    }
  }

  /** The state of a fresh server after `actions`. */
  ghost function ReachedServer(actions: seq<Action>): Server {
    RunServer(NewServer(), actions)
  }

  lemma ReachedServerKeeps(actions: seq<Action>)
    ensures ServerInv(ReachedServer(actions))
  {
    hide ServerInv, RunServer;
    NewServerInv();
    RunServerKeeps(NewServer(), actions);
  }

  // ---------------------------------------------------------------- results for every run

  /** Every recording in the manager's map records; and what still records is in the map or about to be
      stopped. */
  lemma MapHoldsWhatRecords(actions: seq<Action>, h: nat)
    requires h < |ReachedServer(actions).bodies|
    ensures var s := ReachedServer(actions);
            && |s.bodies| == |s.book.roomOf|
            && (s.bodies[h].status.Recording? <==> InMap(s.book, h) || InHands(s.book, h))
  {
    hide Grown, MapInv, SessionInv, LoopInv;
    ReachedServerKeeps(actions);
    hide ReachedServer;
  }

  /** Whoever calls Stop finds the recording recording: the call that reports "not active" never happens. */
  lemma StopNeverRefused(actions: seq<Action>, e: Event, h: nat)
    requires var s := ReachedServer(actions); h < |s.bodies| && Calls(s.book, e, h)
    ensures var s := ReachedServer(actions);
            s.bodies[h].status.Recording? && s.bodies[h].stop.Running? && DoStopMark(s.bodies[h]).stop.Marked?
  {
    hide Grown, MapInv, SessionInv, LoopInv;
    var s := ReachedServer(actions);
    ReachedServerKeeps(actions);
    hide ReachedServer;
    assert InHands(s.book, h);
    GrownInv(s.bodies[h]);
    RecordingIsRunning(s.bodies[h]);
  }

  lemma RecordingIsRunning(r: Room)
    requires RoomInv(r) && r.status.Recording?
    ensures r.stop.Running?
  {
    hide HeapInv, LiveInv, CompletedInv, LogInv, CountInv, TracksCounted;
  }

  /** Every AddTrack of a run uses a track ID that is new in its recording. */
  ghost predicate Guarded(s: Server, actions: seq<Action>)
    decreases |actions|
  {
    actions == [] || (
      && (actions[0].Inside? && actions[0].rec < |s.bodies| && Adds(s.bodies[actions[0].rec], actions[0].step) ==>
            FreshID(s.bodies[actions[0].rec], actions[0].step))
      && Guarded(Act(s, actions[0]), actions[1..]))
  }

  ghost predicate AllDistinct(s: Server) {
    forall h :: 0 <= h < |s.bodies| ==> IDsDistinct(s.bodies[h])
  }

  lemma ActKeepsDistinct(s: Server, a: Action)
    requires ServerInv(s) && AllDistinct(s)
    requires a.Inside? && a.rec < |s.bodies| && Adds(s.bodies[a.rec], a.step) ==> FreshID(s.bodies[a.rec], a.step)
    ensures AllDistinct(Act(s, a))
  {
    hide BookInv, Grown, RoomInv, Do, React, Adds, FreshID;
    if a.Inside? && a.rec < |s.bodies| && !a.step.StopMark? {
      GrownInv(s.bodies[a.rec]);
      AddDistinct(s.bodies[a.rec], a.step);
    }
  }

  lemma {:induction false} RunKeepsDistinct(s: Server, actions: seq<Action>)
    requires ServerInv(s) && AllDistinct(s) && Guarded(s, actions)
    ensures AllDistinct(RunServer(s, actions))
    decreases |actions|
  {
    hide ServerInv, Act, AllDistinct, Adds, FreshID;
    if actions != [] {
      ActKeeps(s, actions[0]);
      ActKeepsDistinct(s, actions[0]);
      RunKeepsDistinct(Act(s, actions[0]), actions[1..]);
    }
  }

  /** When a Stop returns to the dispatcher, the recording's metadata accounts for every packet that was
      ever accepted, whatever else was going on. */
  lemma ReturnedStopIsComplete(actions: seq<Action>)
    requires var s := ReachedServer(actions); s.book.at.Waiting? && !Blocked(s, Return) && s.book.at.rec < |s.bodies|
    ensures var r := ReachedServer(actions).bodies[ReachedServer(actions).book.at.rec];
            && r.stop.Finished? && r.tracks == map[]
            && |r.stop.metadata.tracks| == r.stop.metadata.trackCount == |r.heap| == |r.completedOf|
            && CompletedPackets(r.stop.metadata.tracks) == |r.accepted|
            && CompletedBytes(r.stop.metadata.tracks) == r.stop.metadata.totalBytes
            && (forall i :: 0 <= i < |r.completedOf| ==>
                  r.completedOf[i] < |r.heap| && Describes(r.stop.metadata.tracks[i], r.heap[r.completedOf[i]]))
            && (forall h :: 0 <= h < |r.heap| ==> r.heap[h].closed)
  {
    hide RoomInv, CompletedPackets, CompletedBytes, BookInv;
    var s := ReachedServer(actions);
    ReachedServerKeeps(actions);
    hide ReachedServer;
    var r := s.bodies[s.book.at.rec];
    GrownInv(r);
    var steps :| r == ReachedRoom(r.policy, r.segmentDuration, r.segmentMaxBytes, steps);
    FinalMetadata(r.policy, r.segmentDuration, r.segmentMaxBytes, steps);
    AllClosedAtEnd(r);
  }

  /** And then, when every AddTrack kept the guard, each track that the metadata lists reads back from
      storage, through the file names listed with it, as the packets accepted for it, if and only if they
      fit the length field. */
  lemma ReturnedStopReadsBack(actions: seq<Action>, i: nat)
    requires Guarded(NewServer(), actions)
    requires var s := ReachedServer(actions); s.book.at.Waiting? && !Blocked(s, Return) && s.book.at.rec < |s.bodies|
    requires var r := ReachedServer(actions).bodies[ReachedServer(actions).book.at.rec];
             r.stop.Finished? && i < |r.stop.metadata.tracks| && i < |r.completedOf|
    ensures var r := ReachedServer(actions).bodies[ReachedServer(actions).book.at.rec];
            ReadBack(Fetch(r.store, r.stop.metadata.tracks[i].segments)) == ForTrack(r.accepted, r.completedOf[i])
            <==> AllFit(ForTrack(r.accepted, r.completedOf[i]))
  {
    hide RoomInv, ReadBack, ForTrack, AllFit, CompletedPackets, CompletedBytes, BookInv, Guarded, RunServer, ServerInv, IDsDistinct;
    var s := ReachedServer(actions);
    ReachedServerKeeps(actions);
    NewServerInv();
    RunKeepsDistinct(NewServer(), actions);
    ReturnedStopIsComplete(actions);
    hide ReachedServer;
    var r := s.bodies[s.book.at.rec];
    BodyGrown(s, s.book.at.rec);
    var steps :| r == ReachedRoom(r.policy, r.segmentDuration, r.segmentMaxBytes, steps);
    hide ReachedRoom;
    DistinctReadsBack(r.policy, r.segmentDuration, r.segmentMaxBytes, steps, r.completedOf[i]);
  }

  lemma BodyGrown(s: Server, h: nat)
    requires ServerInv(s) && h < |s.bodies|
    ensures Grown(s.bodies[h])
  {
    hide Grown, BookInv;
  }

  lemma AllClosedAtEnd(r: Room)
    requires RoomInv(r) && r.stop.Finished?
    ensures r.tracks == map[] && forall h :: 0 <= h < |r.heap| ==> r.heap[h].closed
  {
    hide HeapInv, CompletedInv, LogInv, CountInv, TracksCounted;
  }

  /** In every run an idle dispatcher that is asked for a recording of a room without one starts a fresh one. */
  lemma BeginAchieves(actions: seq<Action>, room: string, policy: Policy, segmentDuration: int, segmentMaxBytes: int)
    requires var s := ReachedServer(actions); s.book.at.Idle? && room !in s.book.rooms
    ensures var s := ReachedServer(actions);
            var s' := Act(s, Begin(room, policy, segmentDuration, segmentMaxBytes));
            && s'.bodies == s.bodies + [NewRoom(policy, segmentDuration, segmentMaxBytes)]
            && s'.book.rooms == s.book.rooms[room := |s.bodies|] && s'.book.at == Starting(room, |s.bodies|)
            && s'.bodies[|s.bodies|].status == Recording && s'.bodies[|s.bodies|].policy == policy
  {
    ReachedServerKeeps(actions);
    hide ReachedServer, BookInv, Grown;
  }

  // ---------------------------------------------------------------- the dispatcher can always finish

  /** The recording being waited for is past Recording. */
  ghost predicate ServerWaits(s: Server) {
    ServerInv(s) && WaitInv(s.book)
  }

  lemma WaitsKept(s: Server, a: Action)
    requires ServerWaits(s)
    ensures ServerWaits(Act(s, a))
  {
    hide BookInv, Grown, RoomInv, Do, DoStopMark, React, WaitInv, ServerInv;
    ActKeeps(s, a);
    BookOf(s);
    match a
    case Begin(room, _, _, _) => StartIs(s.book, room); WaitKept(s.book, StartRequest(room));
    case Control(e) => WaitKept(s.book, e);
    case Inside(_, _) =>
  }

  lemma StartIs(b: Book, room: string)
    ensures React(b, StartRequest(room)) == DoStart(b, room)
  {
  }

  lemma BookOf(s: Server)
    requires ServerInv(s)
    ensures BookInv(s.book)
  {
    hide BookInv, Grown;
  }

  lemma {:induction false} RunWaits(s: Server, actions: seq<Action>)
    requires ServerWaits(s)
    ensures ServerWaits(RunServer(s, actions))
    decreases |actions|
  {
    hide ServerWaits, Act;
    if actions != [] {
      WaitsKept(s, actions[0]);
      RunWaits(Act(s, actions[0]), actions[1..]);
    }
  }

  lemma {:induction false} RunServerConcat(s: Server, first: seq<Action>, second: seq<Action>)
    ensures RunServer(s, first + second) == RunServer(RunServer(s, first), second)
    decreases |first|
  {
    hide Act;
    if first == [] {
      assert first + second == second;
    } else {
      assert (first + second)[1..] == first[1..] + second;
      RunServerConcat(Act(s, first[0]), first[1..], second);
    }
  }

  function Steps(rec: nat, steps: seq<Step>): seq<Action> {
    if steps == [] then [] else [Inside(rec, steps[0])] + Steps(rec, steps[1..])
  }

  lemma {:induction false} StepsRun(s: Server, rec: nat, steps: seq<Step>)
    requires rec < |s.bodies| && forall i :: 0 <= i < |steps| ==> !steps[i].StopMark?
    ensures RunServer(s, Steps(rec, steps)) == s.(bodies := s.bodies[rec := RunRoom(s.bodies[rec], steps)])
    decreases |steps|
  {
    hide Do;
    if steps != [] {
      var all := Steps(rec, steps);
      assert all[0] == Inside(rec, steps[0]) && all[1..] == Steps(rec, steps[1..]);
      StepsRun(Act(s, all[0]), rec, steps[1..]);
    }
  }

  /** How far the dispatcher has to go: the rooms still to be listed, then the stage of the current one. */
  function RoomsLeft(d: Dispatcher): set<string> {
    match d
    case Disconnecting(left) => left
    case Taking(_, ToLoop(left)) => left
    case Calling(_, ToLoop(left)) => left
    case Waiting(_, ToLoop(left)) => left
    case _ => {}
  }

  function Stage(d: Dispatcher): nat {
    match d
    case Idle => 0
    case Starting(_, _) => 1
    case Disconnecting(_) => 1
    case Waiting(_, _) => 2
    case Calling(_, _) => 3
    case Taking(_, _) => 4
  }

  /** The event that brings the dispatcher on. */
  ghost function OwnEvent(b: Book): Event
    requires !b.at.Idle?
  {
    match b.at
    case Starting(_, _) => FinishStart(false)
    case Disconnecting(left) => if left == {} then EndDisconnect else var room :| room in left; NextRoom(room)
    case Taking(_, _) => Take
    case Calling(_, _) => Call
    case Waiting(_, _) => Return
  }

  lemma OwnEventHelps(b: Book)
    requires !b.at.Idle?
    ensures var b' := React(b, OwnEvent(b));
            RoomsLeft(b'.at) < RoomsLeft(b.at) || (RoomsLeft(b'.at) == RoomsLeft(b.at) && Stage(b'.at) < Stage(b.at))
    ensures !OwnEvent(b).StartRequest?
  {
  }

  /** The recording that is waited for comes to its end. */
  lemma Unblock(s: Server, now: Time) returns (actions: seq<Action>)
    requires ServerWaits(s)
    ensures RunServer(s, actions).book == s.book && !Blocked(RunServer(s, actions), Return)
  {
    actions := [];
    if Blocked(s, Return) {
      var rec := s.book.at.rec;
      StoppedBody(s, rec);
      var steps := StopCanFinish(s.bodies[rec], now);
      StepsRun(s, rec, steps);
      actions := Steps(rec, steps);
    }
  }

  lemma StoppedBody(s: Server, rec: nat)
    requires ServerWaits(s) && s.book.at.Waiting? && s.book.at.rec == rec < |s.bodies|
    ensures RoomInv(s.bodies[rec]) && !s.bodies[rec].stop.Running?
  {
    hide BookInv, RoomInv;
    assert s.book.stopCalls[rec] != 0;
    assert Grown(s.bodies[rec]) && !s.bodies[rec].status.Recording?;
    GrownInv(s.bodies[rec]);
    hide Grown;
    NotRunning(s.bodies[rec]);
  }

  lemma NotRunning(r: Room)
    requires RoomInv(r) && !r.status.Recording?
    ensures !r.stop.Running?
  {
    hide HeapInv, LiveInv, CompletedInv, LogInv, CountInv, TracksCounted;
  }

  /** One step further: the dispatcher's own event, after the recording it waits for has finished. */
  lemma OneFurther(s: Server, now: Time) returns (actions: seq<Action>)
    requires ServerWaits(s) && !s.book.at.Idle?
    ensures var b, b' := s.book, RunServer(s, actions).book;
            RoomsLeft(b'.at) < RoomsLeft(b.at) || (RoomsLeft(b'.at) == RoomsLeft(b.at) && Stage(b'.at) < Stage(b.at))
  {
    hide ServerWaits, React, OwnEvent, RoomsLeft, Stage, DoStopMark, Calls;
    var first := Unblock(s, now);
    var s1 := RunServer(s, first);
    OwnEventHelps(s.book);
    var last := Control(OwnEvent(s.book));
    RunServerConcat(s, first, [last]);
    assert [last][1..] == [] && RunServer(s1, [last]) == Act(s1, last);
    actions := first + [last];
    OnlyReturnBlocks(s1, OwnEvent(s.book));
  }

  lemma OnlyReturnBlocks(s: Server, e: Event)
    requires !Blocked(s, Return)
    ensures !Blocked(s, e)
  {
  }

  lemma {:induction false} CanFinish(s: Server, now: Time) returns (actions: seq<Action>)
    requires ServerWaits(s)
    ensures RunServer(s, actions).book.at.Idle?
    decreases RoomsLeft(s.book.at), Stage(s.book.at)
  {
    hide ServerWaits, RoomsLeft, Stage, Act;
    actions := [];
    if !s.book.at.Idle? {
      var first := OneFurther(s, now);
      RunWaits(s, first);
      var rest := CanFinish(RunServer(s, first), now);
      RunServerConcat(s, first, rest);
      actions := first + rest;
    }
  }

  /** From every state of the service, whatever it is doing and whatever recordings and shutdowns are under way, the
      dispatcher can come back to the next message: nothing it waits for is stuck. */
  lemma DispatcherNeverStuck(actions: seq<Action>, now: Time) returns (more: seq<Action>)
    ensures ReachedServer(actions + more).book.at.Idle?
  {
    hide RunServer, ServerInv;
    NewServerInv();
    assert ServerWaits(NewServer());
    hide ServerWaits;
    RunWaits(NewServer(), actions);
    more := CanFinish(ReachedServer(actions), now);
    RunServerConcat(NewServer(), actions, more);
  }
}
