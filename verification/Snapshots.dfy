/** The metadata object in storage. Stop writes it at the end, but a snapshot that the live recorder began
    earlier may still be on its way and write the same object later. */
module Snapshots {
  import opened GoTypes
  import opened TrackModel
  import opened TrackLaws
  import opened RoomModel
  import opened RoomProofs

  /** A snapshot after its read lock, and after it has built what it will write. */
  datatype Stage = Collected(active: set<nat>, infos: seq<TrackInfo>) | Built(metadata: Metadata)

  /** What the object says: whether the recording is over, and the metadata. */
  datatype Document = Document(over: bool, metadata: Metadata)

  datatype Storage = Storage(
    room: Room,
    pending: seq<Stage>,
    document: Option<Document>,
    recorder: bool, // the live recorder's goroutine is still there and may begin another snapshot
    cancelled: bool) // storageCancel was called: no snapshot gets through any more

  datatype Action =
    | Begin
    | Leave // the goroutine notices its cancellation; a fired timer may still win against it
    | Build(i: nat)
    | Put(i: nat)
    | Inside(s: Step)

  function NewStorage(policy: Policy, segmentDuration: int, segmentMaxBytes: int): Storage {
    Storage(NewRoom(policy, segmentDuration, segmentMaxBytes), [], None, true, false)
  }

  function BuildFrom(r: Room, active: set<nat>, infos: seq<TrackInfo>): Metadata {
    var stats := StatsOf(r);
    Metadata(ActiveInfos(r.heap, active) + infos, stats.trackCount, stats.peerCount, stats.totalBytes)
  }

  /** Stop writes the object when it has built its metadata, and cancels the storage context only after
      finalising has worked. */
  ghost function DoInside(b: Storage, s: Step): Storage {
    var r := Do(b.room, s);
    b.(room := r,
       document := if s.StopMetadata? && r.stop.Written? && !b.room.stop.Written? then Some(Document(true, r.stop.metadata)) else b.document,
       cancelled := b.cancelled || (s.StopFinish? && s.finalized && r.stop.Finished? && !b.room.stop.Finished?))
  }

  ghost function Act(b: Storage, a: Action): Storage {
    match a
    case Begin =>
      if b.recorder && Unlocked(b.room)
      then b.(pending := b.pending + [Collected(b.room.tracks.Values, b.room.completed)])
      else b
    case Leave => b.(recorder := false)
    case Build(i) =>
      if i < |b.pending| && b.pending[i].Collected? && Unlocked(b.room)
      then b.(pending := b.pending[i := Built(BuildFrom(b.room, b.pending[i].active, b.pending[i].infos))])
      else b
    case Put(i) =>
      if i < |b.pending| && b.pending[i].Built?
      then b.(pending := b.pending[..i] + b.pending[i + 1..],
              document := if b.cancelled then b.document else Some(Document(false, b.pending[i].metadata)))
      else b
    case Inside(s) => DoInside(b, s)
  }

  ghost function RunStorage(b: Storage, actions: seq<Action>): Storage
    decreases |actions|
  {
    if actions == [] then b else RunStorage(Act(b, actions[0]), actions[1..])
  }

  ghost function ReachedStorage(policy: Policy, segmentDuration: int, segmentMaxBytes: int, actions: seq<Action>): Storage {
    RunStorage(NewStorage(policy, segmentDuration, segmentMaxBytes), actions)
  }

  // ---------------------------------------------------------------- what a snapshot lists

  lemma {:induction false} SameActive(heap: seq<Track>, active: set<nat>, other: set<nat>)
    requires forall h :: 0 <= h < |heap| ==> (h in active <==> h in other)
    ensures ActiveInfos(heap, active) == ActiveInfos(heap, other)
  {
    if heap != [] {
      SameActive(heap[..|heap| - 1], active, other);
    }
  }

  lemma {:induction false} ActiveListed(heap: seq<Track>, active: set<nat>)
    requires forall h :: h in active ==> h < |heap|
    ensures |ActiveInfos(heap, active)| == |active|
    ensures forall h :: h in active ==> heap[h].Info() in ActiveInfos(heap, active)
  {
    if heap != [] {
      var n := |heap| - 1;
      SameActive(heap[..n], active, active - {n});
      ActiveListed(heap[..n], active - {n});
      forall h | h in active ensures heap[h].Info() in ActiveInfos(heap, active) {
        if h < n {
          assert heap[..n][h].Info() in ActiveInfos(heap[..n], active - {n});
        }
      }
    }
  }

  /** A snapshot lists every track that was active when it began, with its data at the time it was built, then the
      completed ones, and the totals of that time. */
  lemma SnapshotLists(r: Room, active: set<nat>, infos: seq<TrackInfo>)
    requires RoomInv(r) && !r.stop.Closing? && forall h :: h in active ==> h < |r.heap|
    ensures var m, n := BuildFrom(r, active, infos), |active|;
            && |m.tracks| == n + |infos| && m.tracks[n..] == infos
            && (forall h :: h in active ==> exists i :: 0 <= i < n && Describes(m.tracks[i], r.heap[h]))
            && Stats(m.trackCount, m.peerCount, m.totalBytes) == StatsOf(r)
  {
    hide RoomInv, StatsOf, ActiveInfos;
    ActiveListed(r.heap, active);
    var m, list := BuildFrom(r, active, infos), ActiveInfos(r.heap, active);
    forall h | h in active ensures exists i :: 0 <= i < |active| && Describes(m.tracks[i], r.heap[h]) {
      var i :| 0 <= i < |list| && list[i] == r.heap[h].Info();
      assert m.tracks[i] == list[i];
    }
  }

  // ---------------------------------------------------------------- invariant

  /** The storage context is cancelled only when the recording is over. */
  ghost predicate StorageInv(b: Storage) {
    RoomInv(b.room) && (b.cancelled ==> b.room.stop.Finished?)
  }

  /** Stop's phases only move forward. */
  lemma PhaseStays(r: Room, s: Step)
    requires RoomInv(r)
    ensures r.stop.Finished? ==> Do(r, s).stop == r.stop
    ensures r.stop.Written? ==> Do(r, s).stop == r.stop || Do(r, s).stop == Finished(r.stop.metadata)
  {
    hide HeapInv, LiveInv, CompletedInv, LogInv, CountInv, TracksCounted,
         TrackInv, WritePacket, TrackModel.RotateAt, CloseAt, AfterMove, NewTrack, StatsOf, ActiveInfos, ConfigOf;
  }

  lemma ActKeeps(b: Storage, a: Action)
    requires StorageInv(b)
    ensures StorageInv(Act(b, a))
  {
    hide RoomInv, Do, StatsOf, ActiveInfos;
    if a.Inside? {
      StepInv(b.room, a.s);
      PhaseStays(b.room, a.s);
    }
  }

  lemma {:induction false} RunKeeps(b: Storage, actions: seq<Action>)
    requires StorageInv(b)
    ensures StorageInv(RunStorage(b, actions))
    decreases |actions|
  {
    hide StorageInv, Act;
    if actions != [] {
      ActKeeps(b, actions[0]);
      RunKeeps(Act(b, actions[0]), actions[1..]);
    }
  }

  lemma ReachedKeeps(policy: Policy, segmentDuration: int, segmentMaxBytes: int, actions: seq<Action>)
    ensures StorageInv(ReachedStorage(policy, segmentDuration, segmentMaxBytes, actions))
  {
    hide RoomInv, RunStorage;
    NewRoomInv(policy, segmentDuration, segmentMaxBytes);
    RunKeeps(NewStorage(policy, segmentDuration, segmentMaxBytes), actions);
  }

  /** In every run: when the goroutine leaves, only that is noted; when Stop writes, its metadata is the document; and
      when finalising works, no snapshot gets through from then on, while after a failure they still do. */
  lemma StopAchieves(policy: Policy, segmentDuration: int, segmentMaxBytes: int, actions: seq<Action>, finalized: bool)
    ensures var b := ReachedStorage(policy, segmentDuration, segmentMaxBytes, actions);
            && Act(b, Leave) == b.(recorder := false)
            && (b.room.stop.Snapshotted? ==>
                  var b' := Act(b, Inside(StopMetadata));
                  b'.room.stop.Written? && b'.document == Some(Document(true, b'.room.stop.metadata)) && !b'.cancelled)
            && (b.room.stop.Written? ==>
                  var b' := Act(b, Inside(StopFinish(finalized)));
                  b'.room.stop.Finished? && b'.document == b.document && b'.cancelled == finalized)
  {
    var b := ReachedStorage(policy, segmentDuration, segmentMaxBytes, actions);
    ReachedKeeps(policy, segmentDuration, segmentMaxBytes, actions);
    hide ReachedStorage, HeapInv, LiveInv, CompletedInv, LogInv, CountInv, TracksCounted, StatsOf, ActiveInfos;
  }

  // ---------------------------------------------------------------- which document stays

  /** The object is the metadata that Stop wrote. */
  predicate FinalThere(b: Storage) {
    (b.room.stop.Written? || b.room.stop.Finished?) && b.document == Some(Document(true, b.room.stop.metadata))
  }

  /** It is, and remains so in every continuation. */
  ghost predicate FinalStays(b: Storage) {
    forall actions :: FinalThere(RunStorage(b, actions))
  }

  /** No snapshot is on its way, and none will begin. */
  predicate Quiet(b: Storage) {
    b.pending == [] && !b.recorder
  }

  lemma QuietStep(b: Storage, a: Action)
    requires StorageInv(b) && FinalThere(b) && (Quiet(b) || b.cancelled)
    ensures FinalThere(Act(b, a)) && (Quiet(Act(b, a)) || Act(b, a).cancelled)
  {
    hide RoomInv, Do, StatsOf, ActiveInfos;
    if a.Inside? {
      PhaseStays(b.room, a.s);
    }
  }

  lemma {:induction false} QuietRun(b: Storage, actions: seq<Action>)
    requires StorageInv(b) && FinalThere(b) && (Quiet(b) || b.cancelled)
    ensures FinalThere(RunStorage(b, actions))
    decreases |actions|
  {
    hide StorageInv, FinalThere, Act, Quiet;
    if actions != [] {
      ActKeeps(b, actions[0]);
      QuietStep(b, actions[0]);
      QuietRun(Act(b, actions[0]), actions[1..]);
    }
  }

  /** The actions that let a snapshot through: the first one on its way, or a new one. */
  function LetThrough(b: Storage): seq<Action> {
    if b.pending == [] then [Begin, Build(0), Put(0)]
    else if b.pending[0].Collected? then [Build(0), Put(0)]
    else [Put(0)]
  }

  lemma SnapshotOverwrites(b: Storage)
    requires !Quiet(b) && !b.cancelled && Unlocked(b.room)
    ensures !FinalThere(RunStorage(b, LetThrough(b)))
    decreases b.pending == [], b.pending != [] && b.pending[0].Collected?
  {
    hide StatsOf, ActiveInfos;
    var steps := LetThrough(b);
    var b1 := Act(b, steps[0]);
    assert RunStorage(b, steps) == RunStorage(b1, steps[1..]);
    if steps[0].Put? {
      assert steps[1..] == [];
    } else {
      assert steps[1..] == LetThrough(b1);
      SnapshotOverwrites(b1);
    }
  }

  /** For every run, at every moment at which the document that Stop wrote is in storage: it stays there
      whatever happens, if and only if the storage context has been cancelled, or no snapshot is on its way
      and the recorder's goroutine has left. */
  lemma FinalStaysIff(policy: Policy, segmentDuration: int, segmentMaxBytes: int, actions: seq<Action>)
    requires FinalThere(ReachedStorage(policy, segmentDuration, segmentMaxBytes, actions))
    ensures var b := ReachedStorage(policy, segmentDuration, segmentMaxBytes, actions);
            FinalStays(b) <==> b.cancelled || Quiet(b)
  {
    var b := ReachedStorage(policy, segmentDuration, segmentMaxBytes, actions);
    ReachedKeeps(policy, segmentDuration, segmentMaxBytes, actions);
    hide ReachedStorage;
    FinalStaysHere(b);
  }

  lemma FinalStaysHere(b: Storage)
    requires StorageInv(b) && FinalThere(b)
    ensures FinalStays(b) <==> b.cancelled || Quiet(b)
  {
    hide StorageInv, RunStorage, LetThrough, Quiet;
    if b.cancelled || Quiet(b) {
      forall more ensures FinalThere(RunStorage(b, more)) {
        QuietRun(b, more);
      }
    } else {
      SnapshotOverwrites(b);
    }
  }

  lemma MetadataWritten(r: Room)
    requires RoomInv(r) && r.stop.Snapshotted?
    ensures Do(r, StopMetadata).stop.Written? && Unlocked(Do(r, StopMetadata))
  {
    hide HeapInv, LiveInv, CompletedInv, LogInv, CountInv, TracksCounted, StatsOf, ActiveInfos;
  }

  /** For every run, when Stop comes to write its metadata: that document is in storage from then on,
      whatever happens, if and only if no snapshot is still on its way and the recorder has left. */
  lemma FinalMetadataStaysIff(policy: Policy, segmentDuration: int, segmentMaxBytes: int, actions: seq<Action>)
    requires ReachedStorage(policy, segmentDuration, segmentMaxBytes, actions).room.stop.Snapshotted?
    ensures var b := ReachedStorage(policy, segmentDuration, segmentMaxBytes, actions);
            FinalStays(Act(b, Inside(StopMetadata))) <==> b.pending == [] && !b.recorder
  {
    hide RoomInv, RunStorage, Do, StatsOf, ActiveInfos, FinalStays;
    var b := ReachedStorage(policy, segmentDuration, segmentMaxBytes, actions);
    ReachedKeeps(policy, segmentDuration, segmentMaxBytes, actions);
    hide ReachedStorage;
    MetadataWritten(b.room);
    ActKeeps(b, Inside(StopMetadata));
    FinalStaysHere(Act(b, Inside(StopMetadata)));
  }

  /** Once finalising has worked, nothing changes the object any more. */
  lemma {:induction false} CancelledFreezes(b: Storage, actions: seq<Action>)
    requires StorageInv(b) && b.cancelled
    ensures RunStorage(b, actions).document == b.document
    decreases |actions|
  {
    hide StorageInv, Act;
    if actions != [] {
      ActKeeps(b, actions[0]);
      CancelledStep(b, actions[0]);
      CancelledFreezes(Act(b, actions[0]), actions[1..]);
    }
  }

  lemma CancelledStep(b: Storage, a: Action)
    requires StorageInv(b) && b.cancelled
    ensures Act(b, a).document == b.document && Act(b, a).cancelled
  {
    hide RoomInv, Do, StatsOf, ActiveInfos;
    if a.Inside? {
      PhaseStays(b.room, a.s);
    }
  }

  lemma AfterFinish(policy: Policy, segmentDuration: int, segmentMaxBytes: int, before: seq<Action>, after: seq<Action>)
    requires ReachedStorage(policy, segmentDuration, segmentMaxBytes, before).cancelled
    ensures var b := ReachedStorage(policy, segmentDuration, segmentMaxBytes, before);
            b.room.stop.Finished? && RunStorage(b, after).document == b.document
  {
    hide RoomInv, RunStorage;
    ReachedKeeps(policy, segmentDuration, segmentMaxBytes, before);
    CancelledFreezes(ReachedStorage(policy, segmentDuration, segmentMaxBytes, before), after);
  }

  // ---------------------------------------------------------------- a failing run

  lemma {:induction false} RunStorageConcat(b: Storage, first: seq<Action>, second: seq<Action>)
    ensures RunStorage(b, first + second) == RunStorage(RunStorage(b, first), second)
    decreases |first|
  {
    hide Act;
    if first == [] {
      assert first + second == second;
    } else {
      assert (first + second)[1..] == first[1..] + second;
      RunStorageConcat(Act(b, first[0]), first[1..], second);
    }
  }

  /** Stop's steps on a recording without tracks. */
  function EmptyStop(i: nat): Step {
    if i == 0 then StopMark else if i == 1 then StopLock else if i == 2 then StopUnlock
    else if i == 3 then StopSnapshot else if i == 4 then StopMetadata else StopFinish(true)
  }

  /** The phase of Stop after `i` of those steps. */
  ghost predicate AtPhase(r: Room, i: nat) {
    && RoomInv(r) && r.tracks == map[]
    && (if i == 0 then r.stop.Running? else if i == 1 then r.stop.Marked? else if i == 2 then r.stop == Closing(map[])
        else if i == 3 then r.stop.TracksClosed? else if i == 4 then r.stop.Snapshotted? else if i == 5 then r.stop.Written?
        else r.stop.Finished? && r.status == Completed)
  }

  lemma NextPhase(r: Room, i: nat)
    requires AtPhase(r, i) && i < 6
    ensures AtPhase(Do(r, EmptyStop(i)), i + 1)
  {
    hide HeapInv, LiveInv, CompletedInv, LogInv, CountInv, TracksCounted, WellFormed, StatsOf, ActiveInfos;
    StepInv(r, EmptyStop(i));
  }

  /** Stop is in phase `i`, the recorder has not left, and `pending` is on its way. */
  ghost predicate StopAt(b: Storage, i: nat, pending: seq<Stage>) {
    AtPhase(b.room, i) && b.pending == pending && b.recorder && !b.cancelled
  }

  lemma StopPasses(b: Storage, i: nat, pending: seq<Stage>)
    requires StopAt(b, i, pending) && i < 5
    ensures StopAt(Act(b, Inside(EmptyStop(i))), i + 1, pending)
  {
    hide AtPhase, Do, RoomInv;
    NextPhase(b.room, i);
  }

  /** Stop up to and with the metadata it writes. */
  lemma StopRuns(b: Storage, pending: seq<Stage>)
    requires StopAt(b, 0, pending)
    ensures StopAt(RunStorage(b, StopBegun()), 5, pending)
  {
    hide StopAt, Act, RunStorage;
    var b1 := Act(b, Inside(EmptyStop(0)));
    StopPasses(b, 0, pending);
    var b2 := Act(b1, Inside(EmptyStop(1)));
    StopPasses(b1, 1, pending);
    var b3 := Act(b2, Inside(EmptyStop(2)));
    StopPasses(b2, 2, pending);
    var b4 := Act(b3, Inside(EmptyStop(3)));
    StopPasses(b3, 3, pending);
    StopPasses(b4, 4, pending);
    FiveActions(b, StopBegun());
  }

  function StopBegun(): seq<Action> {
    [Inside(StopMark), Inside(StopLock), Inside(StopUnlock), Inside(StopSnapshot), Inside(StopMetadata)]
  }

  /** A snapshot gets through before Stop finishes. */
  lemma LateSnapshot(b: Storage)
    requires |b.pending| == 1 && b.pending[0].Collected? && StopAt(b, 5, b.pending)
    ensures Overtaken(RunStorage(b, [Build(0), Put(0), Inside(StopFinish(true))]))
  {
    hide RoomInv, Do, StatsOf, ActiveInfos, RunStorage;
    NextPhase(b.room, 5);
    var b2 := Act(Act(b, Build(0)), Put(0));
    assert b2.room == b.room && b2.document.Some? && !b2.document.value.over && !b2.cancelled;
    ThreeActions(b, [Build(0), Put(0), Inside(StopFinish(true))]);
  }

  /** The recording is completed, and its object says that it is still recording. */
  predicate Overtaken(b: Storage) {
    b.room.status.Completed? && b.document.Some? && !b.document.value.over
  }

  lemma NewAtPhase(policy: Policy)
    ensures StopAt(NewStorage(policy, 0, 0), 0, [])
  {
    hide RoomInv;
    NewRoomInv(policy, 0, 0);
  }

  /** An empty recording whose snapshot began before Stop and writes after it. */
  lemma SnapshotWinsExample(policy: Policy)
    ensures Overtaken(ReachedStorage(policy, 0, 0,
              [Begin] + StopBegun() + [Build(0), Put(0), Inside(StopFinish(true))]))
  {
    hide RoomInv, RunStorage, AtPhase, Overtaken, StopBegun;
    var b0 := NewStorage(policy, 0, 0);
    NewAtPhase(policy);
    var b1 := Act(b0, Begin);
    BeginAtPhase(b0.room);
    OneAction(b0, Begin);
    hide Act;
    StopRuns(b1, b1.pending);
    LateSnapshot(RunStorage(b1, StopBegun()));
    RunStorageConcat(b0, [Begin] + StopBegun(), [Build(0), Put(0), Inside(StopFinish(true))]);
    RunStorageConcat(b0, [Begin], StopBegun());
  }

  lemma BeginAtPhase(r: Room)
    requires AtPhase(r, 0)
    ensures Unlocked(r)
  {
  }

  /** No snapshot is on its way when Stop writes; the timer fires although the session is cancelled. */
  lemma LateBeginExample(policy: Policy)
    ensures var b := ReachedStorage(policy, 0, 0, StopBegun()); b.pending == [] && b.room.stop.Written?
    ensures Overtaken(ReachedStorage(policy, 0, 0,
              StopBegun() + [Begin] + [Build(0), Put(0), Inside(StopFinish(true))]))
  {
    hide RoomInv, RunStorage, Overtaken, StopBegun;
    var b0 := NewStorage(policy, 0, 0);
    NewAtPhase(policy);
    StopRuns(b0, []);
    var b1 := RunStorage(b0, StopBegun());
    OneAction(b1, Begin);
    LateSnapshot(Act(b1, Begin));
    RunStorageConcat(b0, StopBegun() + [Begin], [Build(0), Put(0), Inside(StopFinish(true))]);
    RunStorageConcat(b0, StopBegun(), [Begin]);
  }

  lemma OneAction(b: Storage, a: Action)
    ensures RunStorage(b, [a]) == Act(b, a)
  {
    hide Act;
    assert [a][1..] == [];
  }

  lemma ThreeActions(b: Storage, s: seq<Action>)
    requires |s| == 3
    ensures RunStorage(b, s) == Act(Act(Act(b, s[0]), s[1]), s[2])
  {
    hide Act;
    assert s[1..][1..] == [s[2]] && [s[2]][1..] == [];
    assert RunStorage(b, s) == RunStorage(Act(b, s[0]), s[1..]) == RunStorage(Act(Act(b, s[0]), s[1]), [s[2]]);
  }

  lemma FiveActions(b: Storage, s: seq<Action>)
    requires |s| == 5
    ensures RunStorage(b, s) == Act(Act(Act(Act(Act(b, s[0]), s[1]), s[2]), s[3]), s[4])
  {
    hide Act;
    var b1 := Act(b, s[0]);
    assert s[1..][1..] == s[2..];
    assert RunStorage(b, s) == RunStorage(b1, s[1..]) == RunStorage(Act(b1, s[1]), s[2..]);
    ThreeActions(Act(b1, s[1]), s[2..]);
  }
}
