/** The live recorder and the room together: at every boundary the recorder cuts the room's segments at
    the end of the part it is about to claim. Both run against one clock. */
module LiveCuts {
  import opened GoTypes
  import opened Brtp
  import opened TrackModel
  import opened TrackProofs
  import opened RoomModel
  import opened RoomProofs
  import opened RoomStore
  import Keys
  import Parts
  import LR = LiveRecorder

  datatype Cutter = Cutter(
    room: Room,
    live: LR.Live,
    startedAt: Time,
    seen: seq<Time>, // for each track the last clock reading taken under its lock
    fired: bool) // the timer has fired and its cut has been collected, the part is not claimed yet

  function NewCutter(policy: Policy, segmentDuration: int, segmentMaxBytes: int,
                     roomID: string, recordingID: string, partDurationSec: Int32, startedAt: Time): Cutter {
    Cutter(NewRoom(policy, segmentDuration, segmentMaxBytes), LR.Start(roomID, recordingID, partDurationSec), startedAt, [], false)
  }

  datatype Action =
    | Pass(dt: nat)
    | Fire // the timer fires: the boundary collects the tracks to cut
    | Session(e: LR.Event)
    | Inside(s: Step)

  function Now(c: Cutter): Time {
    c.startedAt + c.live.elapsed
  }

  /** partEnd of runLiveRecorder. */
  function PartEnd(c: Cutter): Time {
    c.startedAt + Wrap64(c.live.next * LR.PartDuration(c.live))
  }

  // ---------------------------------------------------------------- room steps as track operations

  /** What it does to that track. */
  function OpOf(r: Room, s: Step): Op
    requires Touched(r, s).Some?
  {
    match s
    case Write(i, clock) => Op.Write(r.writes[i].packet, clock)
    case Rotate(i, _, now) => Op.Rotate(r.cuts[i].cutoff, now)
    case RemoveTrack(_, end, closeNow, endNow) => Close(end, closeNow, endNow)
    case StopClose(_, closeNow, endNow) => Close(None, closeNow, endNow)
  }

  function LastReading(op: Op): Time {
    match op
    case Write(_, r) => r.written
    case Rotate(_, now) => now
    case Close(_, _, endNow) => endNow
  }

  lemma StepApplies(r: Room, s: Step)
    requires RoomInv(r)
    ensures var r', t := Do(r, s), Touched(r, s);
            if t.Some? then t.value < |r.heap| && TrackInv(r.heap[t.value])
                            && r'.heap == r.heap[t.value := Apply(r.heap[t.value], OpOf(r, s))]
            else r'.heap == if Adds(r, s) then r.heap + [NewTrack(ConfigOf(r, s), s.now)] else r.heap
  {
    hide HeapInv, LiveInv, CompletedInv, LogInv, CountInv, PhaseInv, TracksCounted,
         TrackInv, WritePacket, TrackModel.RotateAt, CloseAt, AfterMove, NewTrack, StatsOf, ActiveInfos, ConfigOf;
    if Touched(r, s).Some? {
      HeapHas(r, Touched(r, s).value);
    }
  }

  lemma CutoffsStay(r: Room, s: Step)
    requires RoomInv(r) && !s.Collect?
    ensures var r' := Do(r, s);
            && |r'.cuts| == |r.cuts|
            && forall i :: 0 <= i < |r.cuts| ==> r'.cuts[i].cutoff == r.cuts[i].cutoff && r'.cuts[i].left <= r.cuts[i].left
  {
    hide HeapInv, LiveInv, CompletedInv, LogInv, CountInv, PhaseInv, TracksCounted,
         TrackInv, WritePacket, TrackModel.RotateAt, CloseAt, AfterMove, NewTrack, StatsOf, ActiveInfos, ConfigOf;
  }

  // ---------------------------------------------------------------- actions

  /** A step takes its clock readings while it holds the track's lock: after everything that was read
      under it before, and not before the step begins. */
  predicate Timely(c: Cutter, s: Step) {
    match Touched(c.room, s)
    case Some(h) => h < |c.seen| && c.seen[h] <= Now(c) && Readings(Now(c), OpOf(c.room, s))
    case None => s.AddTrack? ==> Now(c) <= s.now
  }

  predicate Readings(now: Time, op: Op) {
    match op
    case Write(_, r) => now <= r.check <= r.cut <= r.start <= r.written
    case Rotate(_, n) => now <= n
    case Close(_, n, m) => now <= n <= m
  }

  function SeenAfter(c: Cutter, s: Step): seq<Time> {
    match Touched(c.room, s)
    case Some(h) => if h < |c.seen| then c.seen[h := LastReading(OpOf(c.room, s))] else c.seen
    case None => if Adds(c.room, s) then c.seen + [s.now] else c.seen
  }

  /** The timer is due, and nothing holds the room lock. */
  predicate Due(c: Cutter) {
    c.live.timer.Waiting? && !c.fired && c.live.elapsed >= Wrap64(c.live.next * LR.PartDuration(c.live)) && Unlocked(c.room)
  }

  /** The cut of this boundary has reached every track it collected. */
  predicate CutDone(c: Cutter) {
    c.fired && c.room.cuts != [] && c.room.cuts[|c.room.cuts| - 1].left == {}
  }

  /** RotateSegmentsAt runs inside a boundary only, and completely, before the part is claimed. */
  ghost function Act(c: Cutter, a: Action): Cutter {
    match a
    case Pass(dt) => c.(live := LR.Next(c.live, LR.Tick(dt)))
    case Fire => if Due(c) then c.(room := Do(c.room, Collect(Some(PartEnd(c)))), fired := true) else c
    case Session(e) =>
      if e.Tick? || (e.Claim? && !CutDone(c)) || (e.Exit? && c.fired) then c
      else c.(live := LR.Next(c.live, e), fired := c.fired && !e.Claim?)
    case Inside(s) =>
      if s.Collect? || !Timely(c, s) then c else c.(room := Do(c.room, s), seen := SeenAfter(c, s))
  }

  ghost function RunCutter(c: Cutter, actions: seq<Action>): Cutter
    decreases |actions|
  {
    if actions == [] then c else RunCutter(Act(c, actions[0]), actions[1..])
  }

  // ---------------------------------------------------------------- invariant

  ghost predicate InOrder(t: Track, seen: Time) {
    Ordered(t.segments) && (!t.closed ==> t.segmentStart <= seen)
  }

  /** Every cutoff still on its way has passed, and every track is in order up to its last reading. */
  ghost predicate CutterInv(c: Cutter) {
    && RoomInv(c.room) && |c.seen| == |c.room.heap|
    && (forall h :: 0 <= h < |c.seen| ==> InOrder(c.room.heap[h], c.seen[h]))
    && (forall i :: 0 <= i < |c.room.cuts| ==> c.room.cuts[i].cutoff.Some? && c.room.cuts[i].cutoff.value <= Now(c))
    && (forall i :: 0 <= i < |c.room.cuts| - (if c.fired then 1 else 0) ==> c.room.cuts[i].left == {})
    && (c.fired ==> c.live.timer.Waiting? && c.room.cuts != []
                    && c.room.cuts[|c.room.cuts| - 1].cutoff == Some(PartEnd(c)))
  }

  lemma OpOrdered(t: Track, now: Time, op: Op)
    requires TrackInv(t) && InOrder(t, now) && Readings(now, op)
    requires op.Rotate? && op.cutoff.Some? ==> op.cutoff.value <= op.now
    ensures InOrder(Apply(t, op), LastReading(op))
  {
    hide Keys.SegmentFileName, FileOf, HeaderAt, Flatten, PayloadBytes, TrackInv;
    assert [op][1..] == [];
    assert ClockRuns(LastReading(op), []);
    assert ClockRuns(now, [op]);
    OrderKept(t, now, [op]);
    assert Run(t, [op]) == Run(Apply(t, op), []) == Apply(t, op);
  }

  lemma StepKeepsOrder(c: Cutter, s: Step)
    requires CutterInv(c) && Timely(c, s) && !s.Collect?
    ensures |SeenAfter(c, s)| == |Do(c.room, s).heap|
    ensures forall h :: 0 <= h < |SeenAfter(c, s)| ==> InOrder(Do(c.room, s).heap[h], SeenAfter(c, s)[h])
  {
    hide RoomInv, Do, Adds, InOrder, Apply, NewTrack, ConfigOf;
    var r, r', seen := c.room, Do(c.room, s), SeenAfter(c, s);
    StepApplies(r, s);
    match Touched(r, s) {
      case Some(h) =>
        var op := OpOf(r, s);
        assert op.Rotate? && op.cutoff.Some? ==> op.cutoff.value <= op.now;
        LaterInOrder(r.heap[h], c.seen[h], Now(c));
        OpOrdered(r.heap[h], Now(c), op);
        assert r'.heap[h] == Apply(r.heap[h], op) && seen[h] == LastReading(op);
      case None =>
        if Adds(r, s) {
          assert forall h :: 0 <= h < |r.heap| ==> r'.heap[h] == r.heap[h] && seen[h] == c.seen[h];
          AddNow(r, s);
          NewInOrder(ConfigOf(r, s), s.now);
        }
    }
  }

  lemma AddNow(r: Room, s: Step)
    requires Adds(r, s)
    ensures s.AddTrack?
  {
  }

  lemma LaterInOrder(t: Track, seen: Time, now: Time)
    requires InOrder(t, seen) && seen <= now
    ensures InOrder(t, now)
  {
  }

  lemma NewInOrder(cfg: TrackConfig, now: Time)
    ensures InOrder(NewTrack(cfg, now), now)
  {
  }

  lemma CollectKeeps(c: Cutter)
    requires CutterInv(c) && Due(c)
    ensures CutterInv(Act(c, Fire))
  {
    hide RoomInv, InOrder;
    StepInv(c.room, Collect(Some(PartEnd(c))));
    CollectEffect(c.room, Some(PartEnd(c)));
  }

  lemma CollectEffect(r: Room, cutoff: Option<Time>)
    requires RoomInv(r) && Unlocked(r)
    ensures Do(r, Collect(cutoff)) == r.(cuts := r.cuts + [PendingCut(r.tracks.Values, cutoff)])
  {
    hide RoomInv;
  }

  lemma InsideKeeps(c: Cutter, s: Step)
    requires CutterInv(c) && Timely(c, s) && !s.Collect?
    ensures CutterInv(Act(c, Inside(s)))
  {
    hide RoomInv, InOrder, Do, SeenAfter, Touched, OpOf;
    StepInv(c.room, s);
    StepKeepsOrder(c, s);
    CutoffsStay(c.room, s);
  }

  lemma ActKeeps(c: Cutter, a: Action)
    requires CutterInv(c)
    ensures CutterInv(Act(c, a)) && Now(Act(c, a)) >= Now(c)
  {
    hide RoomInv, InOrder, Do, SeenAfter, Timely, LR.LivePart, Wrap64, Due;
    match a {
      case Inside(s) =>
        if !s.Collect? && Timely(c, s) {
          InsideKeeps(c, s);
        }
      case Fire =>
        if Due(c) {
          CollectKeeps(c);
        }
      case Pass(dt) =>
      case Session(e) =>
    }
  }

  lemma {:induction false} RunKeeps(c: Cutter, actions: seq<Action>)
    requires CutterInv(c)
    ensures CutterInv(RunCutter(c, actions))
    decreases |actions|
  {
    hide CutterInv, Act;
    if actions != [] {
      ActKeeps(c, actions[0]);
      RunKeeps(Act(c, actions[0]), actions[1..]);
    }
  }

  /** The state of a fresh room with its live recorder after `actions`. */
  ghost function ReachedCutter(policy: Policy, segmentDuration: int, segmentMaxBytes: int,
                               roomID: string, recordingID: string, sec: Int32, startedAt: Time, actions: seq<Action>): Cutter {
    RunCutter(NewCutter(policy, segmentDuration, segmentMaxBytes, roomID, recordingID, sec, startedAt), actions)
  }

  lemma NewKeeps(policy: Policy, segmentDuration: int, segmentMaxBytes: int,
                 roomID: string, recordingID: string, sec: Int32, startedAt: Time)
    ensures CutterInv(NewCutter(policy, segmentDuration, segmentMaxBytes, roomID, recordingID, sec, startedAt))
  {
    hide RoomInv;
    NewRoomInv(policy, segmentDuration, segmentMaxBytes);
  }

  // ---------------------------------------------------------------- results for every run

  /** With the live recorder as the only source of cutoffs, no condition on them is left: in every run the
      segments of every track follow one another in order. */
  lemma LiveSegmentsOrdered(policy: Policy, segmentDuration: int, segmentMaxBytes: int,
                            roomID: string, recordingID: string, sec: Int32, startedAt: Time, actions: seq<Action>, h: nat)
    requires var c := ReachedCutter(policy, segmentDuration, segmentMaxBytes, roomID, recordingID, sec, startedAt, actions);
             h < |c.room.heap|
    ensures var c := ReachedCutter(policy, segmentDuration, segmentMaxBytes, roomID, recordingID, sec, startedAt, actions);
            Ordered(c.room.heap[h].segments)
  {
    hide RoomInv, RunCutter, Ordered;
    NewKeeps(policy, segmentDuration, segmentMaxBytes, roomID, recordingID, sec, startedAt);
    RunKeeps(NewCutter(policy, segmentDuration, segmentMaxBytes, roomID, recordingID, sec, startedAt), actions);
  }

  // ---------------------------------------------------------------- where the boundary cuts land

  ghost predicate StartsAt(t: Track, T: Time) {
    exists j :: 0 <= j < |t.segments| && t.segments[j].startTime == T
  }

  /** One segment ends at `T` and the next one starts there. */
  ghost predicate CutAt(t: Track, T: Time) {
    exists j :: 0 < j < |t.segments| && t.segments[j].startTime == T && t.segments[j - 1].endTime == Some(T)
  }

  /** The track has moved past `T`. */
  ghost predicate Past(t: Track, T: Time) {
    t.Shaped() && T <= t.segmentStart && (StartsAt(t, T) || T < t.segmentStart)
  }

  /** What one operation does to the starts of segments. */
  lemma OpStarts(t: Track, now: Time, op: Op)
    requires TrackInv(t) && InOrder(t, now) && Readings(now, op)
    ensures var t' := Apply(t, op);
            && (t'.segments == t.segments
                || (|t'.segments| == |t.segments| && t'.segmentStart == t.segmentStart && !t.closed)
                || (|t'.segments| == |t.segments| + 1 && t'.segments[|t.segments|].startTime == t'.segmentStart >= t.segmentStart && !t.closed))
            && (t'.segments == t.segments ==> t'.segmentStart == t.segmentStart)
            && (forall j :: 0 <= j < |t.segments| ==> t'.segments[j].startTime == t.segments[j].startTime)
            && (forall j :: 0 <= j < |t.segments| - 1 ==> t'.segments[j].endTime == t.segments[j].endTime)
  {
    hide Keys.SegmentFileName, SegmentFile, Flatten, PayloadBytes, TrackInv, Ordered;
  }

  lemma OpKeepsCut(t: Track, now: Time, op: Op, T: Time)
    requires TrackInv(t) && InOrder(t, now) && Readings(now, op) && Past(t, T)
    ensures Past(Apply(t, op), T) && (StartsAt(Apply(t, op), T) <==> StartsAt(t, T)) && (CutAt(t, T) ==> CutAt(Apply(t, op), T))
  {
    hide TrackInv, InOrder, Apply, Readings;
    OpStarts(t, now, op);
    var t' := Apply(t, op);
    if StartsAt(t, T) {
      var j :| 0 <= j < |t.segments| && t.segments[j].startTime == T;
      assert t'.segments[j].startTime == T;
    }
    if CutAt(t, T) {
      var j :| 0 < j < |t.segments| && t.segments[j].startTime == T && t.segments[j - 1].endTime == Some(T);
      assert t'.segments[j].startTime == T && t'.segments[j - 1].endTime == Some(T);
    }
  }

  lemma ActKeepsCut(c: Cutter, a: Action, h: nat, T: Time)
    requires CutterInv(c) && h < |c.room.heap| && Past(c.room.heap[h], T)
    ensures var c' := Act(c, a);
            && h < |c'.room.heap| && Past(c'.room.heap[h], T)
            && (StartsAt(c'.room.heap[h], T) <==> StartsAt(c.room.heap[h], T))
            && (CutAt(c.room.heap[h], T) ==> CutAt(c'.room.heap[h], T))
  {
    hide RoomInv, InOrder, Do, SeenAfter, Past, StartsAt, CutAt, Apply, OpOf, Readings, Adds, NewTrack, ConfigOf, LR.Next, Touched;
    match a {
      case Inside(s) =>
        if !s.Collect? && Timely(c, s) {
          StepApplies(c.room, s);
          if Touched(c.room, s) == Some(h) {
            LaterInOrder(c.room.heap[h], c.seen[h], Now(c));
            OpKeepsCut(c.room.heap[h], Now(c), OpOf(c.room, s), T);
          }
        }
      case Fire =>
        if Due(c) {
          CollectEffect(c.room, Some(PartEnd(c)));
        }
      case Pass(dt) =>
      case Session(e) =>
    }
  }

  lemma {:induction false} RunKeepsCut(c: Cutter, actions: seq<Action>, h: nat, T: Time)
    requires CutterInv(c) && h < |c.room.heap| && Past(c.room.heap[h], T)
    ensures var d := RunCutter(c, actions);
            && h < |d.room.heap| && (StartsAt(d.room.heap[h], T) <==> StartsAt(c.room.heap[h], T))
            && (CutAt(c.room.heap[h], T) ==> CutAt(d.room.heap[h], T))
    decreases |actions|
  {
    hide CutterInv, Act, Past, StartsAt, CutAt;
    if actions != [] {
      ActKeeps(c, actions[0]);
      ActKeepsCut(c, actions[0], h, T);
      RunKeepsCut(Act(c, actions[0]), actions[1..], h, T);
    }
  }

  /** The cut itself. */
  lemma CutLands(t: Track, now: Time, T: Time, n: Time)
    requires TrackInv(t) && !t.closed && InOrder(t, now) && T <= now <= n
    ensures var t' := Apply(t, Op.Rotate(Some(T), n));
            && Past(t', T)
            && (StartsAt(t', T) <==> t.segmentStart <= T || StartsAt(t, T))
            && (t.segmentStart <= T ==> CutAt(t', T))
  {
    hide Keys.SegmentFileName, SegmentFile, Flatten, PayloadBytes;
    var t', m := Apply(t, Op.Rotate(Some(T), n)), |t.segments|;
    assert t.segments[m - 1].startTime == t.segmentStart;
    hide TrackInv, InOrder;
    var cut := if T < t.segmentStart then t.segmentStart else T;
    assert |t'.segments| == m + 1 && t'.segments[m].startTime == cut == t'.segmentStart && t'.segments[m - 1].endTime == Some(cut);
    assert forall j :: 0 <= j < m ==> t'.segments[j].startTime == t.segments[j].startTime;
    hide Apply;
    if StartsAt(t, T) {
      var j :| 0 <= j < m && t.segments[j].startTime == T;
      assert t'.segments[j].startTime == T;
    }
    if StartsAt(t', T) {
      var j :| 0 <= j < |t'.segments| && t'.segments[j].startTime == T;
      if j < m {
        assert t.segments[j].startTime == T;
      }
    }
  }

  /** Where a boundary's cut lands, for every run before and after it: the track's segment list has a
      start at the boundary for ever after, if and only if no rotation had started a later segment when
      the cut reached the track (or one had started a segment at just that time); and then the segment
      before ends exactly there. */
  lemma BoundaryCutIff(policy: Policy, segmentDuration: int, segmentMaxBytes: int,
                       roomID: string, recordingID: string, sec: Int32, startedAt: Time,
                       before: seq<Action>, i: nat, h: nat, n: Time, after: seq<Action>)
    requires var c := ReachedCutter(policy, segmentDuration, segmentMaxBytes, roomID, recordingID, sec, startedAt, before);
             && i < |c.room.cuts| && h in c.room.cuts[i].left && h < |c.room.heap| && !c.room.heap[h].closed
             && Timely(c, Step.Rotate(i, h, n))
    ensures var c := ReachedCutter(policy, segmentDuration, segmentMaxBytes, roomID, recordingID, sec, startedAt, before);
            var d := RunCutter(Act(c, Inside(Step.Rotate(i, h, n))), after);
            c.room.cuts[i].cutoff.Some? &&
            var (t, T) := (c.room.heap[h], c.room.cuts[i].cutoff.value);
            && h < |d.room.heap|
            && (StartsAt(d.room.heap[h], T) <==> t.segmentStart <= T || StartsAt(t, T))
            && (t.segmentStart <= T ==> CutAt(d.room.heap[h], T))
  {
    hide RoomInv, RunCutter, InOrder, Do, Past, StartsAt, CutAt, Apply, SeenAfter;
    NewKeeps(policy, segmentDuration, segmentMaxBytes, roomID, recordingID, sec, startedAt);
    RunKeeps(NewCutter(policy, segmentDuration, segmentMaxBytes, roomID, recordingID, sec, startedAt), before);
    var c := ReachedCutter(policy, segmentDuration, segmentMaxBytes, roomID, recordingID, sec, startedAt, before);
    hide ReachedCutter;
    var s := Step.Rotate(i, h, n);
    var t, T := c.room.heap[h], c.room.cuts[i].cutoff.value;
    StepApplies(c.room, s);
    LaterInOrder(t, c.seen[h], Now(c));
    CutLands(t, Now(c), T, n);
    ActKeeps(c, Inside(s));
    RunKeepsCut(Act(c, Inside(s)), after, h, T);
  }

  /** The failing run, with parts of a second and a segment limit of one byte: a packet starts a segment
      one nanosecond after the boundary, before the boundary's cut reaches the track. */
  function LateCut(startedAt: Time): seq<Action> {
    var late := startedAt + Parts.SECOND + 1;
    [Inside(AddTrack("p", "alice", [], 0, 0, Audio, startedAt)), Pass(Parts.SECOND), Fire, Pass(1),
     Inside(LookUp("p", Packet([1], 7))), Inside(Step.Write(0, Reads(late, late, late, late))), Inside(Step.Rotate(0, 0, late))]
  }

  lemma LateTrack(cfg: TrackConfig, start: Time, T: Time, late: Time)
    requires cfg.segmentDuration == 0 && cfg.segmentMaxBytes == 1 && start < T < late
    ensures var t := RotateAt(WritePacket(NewTrack(cfg, start), Packet([1], 7), Reads(late, late, late, late)).0, Some(T), late);
            |t.segments| == 3 && t.segments[0].startTime == start && t.segments[1].startTime == t.segments[2].startTime == late
  {
    hide Keys.SegmentFileName, SegmentFile;
  }

  lemma SevenActions(c: Cutter, a: seq<Action>)
    requires |a| == 7
    ensures RunCutter(c, a) == Act(Act(Act(Act(Act(Act(Act(c, a[0]), a[1]), a[2]), a[3]), a[4]), a[5]), a[6])
  {
    hide Act;
    var c3 := Act(Act(Act(c, a[0]), a[1]), a[2]);
    assert a[1..][1..] == a[2..] && a[2..][1..] == a[3..] && a[3..][1..] == a[4..];
    assert a[4..][1..] == a[5..] && a[5..][1..] == a[6..] && a[6..][1..] == [];
    assert RunCutter(c, a) == RunCutter(Act(c, a[0]), a[1..]) == RunCutter(Act(Act(c, a[0]), a[1]), a[2..]) == RunCutter(c3, a[3..]);
    var c5 := Act(Act(c3, a[3]), a[4]);
    assert RunCutter(c3, a[3..]) == RunCutter(Act(c3, a[3]), a[4..]) == RunCutter(c5, a[5..]);
    assert RunCutter(c5, a[5..]) == RunCutter(Act(c5, a[5]), a[6..]) == RunCutter(Act(Act(c5, a[5]), a[6]), []);
  }

  /** The boundary has collected the only track, and a nanosecond has passed. */
  ghost predicate CutPending(c: Cutter, cfg: TrackConfig, start: Time, T: Time) {
    && RoomInv(c.room) && Unlocked(c.room) && c.room.status.Recording? && c.room.writes == []
    && c.room.heap == [NewTrack(cfg, start)] && c.room.tracks == map["p" := 0] && c.seen == [start]
    && c.room.cuts == [PendingCut({0}, Some(T))] && start < T && Now(c) == T + 1
    && cfg.segmentDuration == 0 && cfg.segmentMaxBytes == 1
  }

  lemma LateBefore(policy: Policy, roomID: string, recordingID: string, startedAt: Time) returns (cfg: TrackConfig)
    requires policy.recordAudio
    ensures var c, a := NewCutter(policy, 0, 1, roomID, recordingID, 1, startedAt), LateCut(startedAt);
            CutPending(Act(Act(Act(Act(c, a[0]), a[1]), a[2]), a[3]), cfg, startedAt, startedAt + Parts.SECOND)
  {
    hide RoomInv, Do, NewTrack, LR.LivePart;
    var a, T := LateCut(startedAt), startedAt + Parts.SECOND;
    var c := NewCutter(policy, 0, 1, roomID, recordingID, 1, startedAt);
    NewKeeps(policy, 0, 1, roomID, recordingID, 1, startedAt);
    cfg := ConfigOf(c.room, a[0].s);
    AddedRoom(c.room, a[0].s);
    AddKeepsCuts(c.room, a[0].s);
    var c2 := Act(Act(c, a[0]), a[1]);
    assert c2.room.tracks == map["p" := 0] && c2.room.tracks["p"] in c2.room.tracks.Values;
    assert c2.room.tracks.Values == {0} && c2.seen == [startedAt];
    assert Due(c2) && PartEnd(c2) == T;
    CollectEffect(c2.room, Some(T));
    StepInv(c2.room, Collect(Some(T)));
  }

  lemma AddKeepsCuts(r: Room, s: Step)
    requires RoomInv(r) && s.AddTrack?
    ensures Do(r, s).cuts == r.cuts
  {
    hide RoomInv, NewTrack;
  }

  /** The packet arrives. */
  lemma LateWrite(c: Cutter, cfg: TrackConfig, start: Time, T: Time)
    requires CutPending(c, cfg, start, T)
    ensures var p, at := Packet([1], 7), Reads(T + 1, T + 1, T + 1, T + 1);
            var c' := Act(Act(c, Inside(LookUp("p", p))), Inside(Step.Write(0, at)));
            && RoomInv(c'.room) && c'.room.heap == [WritePacket(NewTrack(cfg, start), p, at).0]
            && c'.room.cuts == [PendingCut({0}, Some(T))] && c'.seen == [T + 1] && Now(c') == T + 1
  {
    hide RoomInv, NewTrack, WritePacket, AfterMove, WellFormed, LR.Next, Due, CutDone, ConfigOf,
         DoAddTrack, DoRemoveTrack, DoStopClose, DoStopMetadata, DoStopSnapshot, DoStopFinish, DoCollect, DoRotate;
    var p, at := Packet([1], 7), Reads(T + 1, T + 1, T + 1, T + 1);
    var c1 := Act(c, Inside(LookUp("p", p)));
    StepInv(c.room, LookUp("p", p));
    assert c1.room == c.room.(writes := [PendingWrite(0, p)]) && c1.live == c.live && c1.seen == c.seen;
    StepInv(c1.room, Step.Write(0, at));
  }

  /** The cut follows it. */
  lemma LateRotate(c: Cutter, t: Track, T: Time)
    requires RoomInv(c.room) && c.room.heap == [t] && c.room.cuts == [PendingCut({0}, Some(T))] && c.seen == [T + 1] && Now(c) == T + 1
    ensures t.Shaped()
    ensures var c' := Act(c, Inside(Step.Rotate(0, 0, T + 1)));
            c'.room.cuts == [PendingCut({}, Some(T))] && c'.room.heap == [TrackModel.RotateAt(t, Some(T), T + 1)]
  {
    hide RoomInv, TrackModel.RotateAt, AfterMove, LR.Next, Due, CutDone, ConfigOf,
         DoAddTrack, DoRemoveTrack, DoStopClose, DoStopMetadata, DoStopSnapshot, DoStopFinish, DoCollect, DoWrite;
    assert c.room.heap[0].Shaped();
    assert {0} - {0} == {};
  }

  /** The cut has reached the track, and the track has no segment that starts at the boundary. */
  lemma LateCutExample(policy: Policy, roomID: string, recordingID: string, startedAt: Time)
    requires policy.recordAudio
    ensures var c := ReachedCutter(policy, 0, 1, roomID, recordingID, 1, startedAt, LateCut(startedAt));
            var T := startedAt + Parts.SECOND;
            && c.room.cuts == [PendingCut({}, Some(T))] && |c.room.heap| == 1 && |c.room.heap[0].segments| == 3
            && !StartsAt(c.room.heap[0], T)
  {
    hide Act, RunCutter, RoomInv, NewTrack, WritePacket, TrackModel.RotateAt, NewRoom;
    var T, c0 := startedAt + Parts.SECOND, NewCutter(policy, 0, 1, roomID, recordingID, 1, startedAt);
    var a := LateCut(startedAt);
    var cfg := LateBefore(policy, roomID, recordingID, startedAt);
    SevenActions(c0, a);
    var c4 := Act(Act(Act(Act(c0, a[0]), a[1]), a[2]), a[3]);
    LateWrite(c4, cfg, startedAt, T);
    LateRotate(Act(Act(c4, a[4]), a[5]), WritePacket(NewTrack(cfg, startedAt), Packet([1], 7), Reads(T + 1, T + 1, T + 1, T + 1)).0, T);
    LateTrack(cfg, startedAt, T, T + 1);
  }

  // ---------------------------------------------------------------- which boundary a cut belongs to

  /** The cuts so far, in order, are those at the ends of parts 1, 2, ... */
  ghost predicate CutsNumbered(c: Cutter) {
    && LR.LiveInv(c.live)
    && (c.live.elapsed < LR.Horizon(c.live.partDurationSec) ==>
          && |c.room.cuts| == |c.live.quickParts| + (if c.fired then 1 else 0)
          && forall i :: 0 <= i < |c.room.cuts| ==>
               c.room.cuts[i].cutoff == Some(c.startedAt + (i + 1) * LR.PartDuration(c.live)))
  }

  lemma EndFits(n: nat, partDurationSec: Int32)
    requires partDurationSec > 0 && n * (partDurationSec * Parts.SECOND) < LR.Horizon(partDurationSec)
    ensures Wrap64((n + 1) * (partDurationSec * Parts.SECOND)) == (n + 1) * (partDurationSec * Parts.SECOND)
  {
    LR.FewParts(n, partDurationSec);
    hide LR.Horizon;
    Parts.WrapIdentity((n + 1) * (partDurationSec * Parts.SECOND));
  }

  /** While the timer waits, the next part's end is computed without overflow. */
  lemma PartEndExact(c: Cutter)
    requires LR.LiveInv(c.live) && c.live.elapsed < LR.Horizon(c.live.partDurationSec) && c.live.timer.Waiting?
    ensures c.live.next == |c.live.quickParts| + 1
    ensures PartEnd(c) == c.startedAt + (|c.live.quickParts| + 1) * LR.PartDuration(c.live)
  {
    hide LR.LivePart, LR.StopInOrder, LR.FinalParts, Wrap64, LR.Horizon;
    EndFits(|c.live.quickParts|, c.live.partDurationSec);
  }

  lemma SessionKeepsNumbers(c: Cutter, e: LR.Event)
    requires CutterInv(c) && CutsNumbered(c) && !e.Tick?
    ensures CutsNumbered(Act(c, Session(e)))
  {
    hide RoomInv, InOrder, LR.LivePart, Wrap64, LR.LiveInv, LR.FinalParts, LR.Unclaimed, LR.Indices, LR.Horizon;
    LR.NextKeepsInv(c.live, e);
    if c.live.elapsed < LR.Horizon(c.live.partDurationSec) && c.fired {
      PartEndExact(c);
    }
  }

  lemma NumbersStay(c: Cutter, a: Action)
    requires CutterInv(c) && CutsNumbered(c)
    ensures CutsNumbered(Act(c, a))
  {
    hide RoomInv, InOrder, Do, SeenAfter, Timely, LR.LivePart, Wrap64, LR.LiveInv, LR.FinalParts, LR.Horizon, PartEnd;
    match a {
      case Session(e) =>
        if !e.Tick? {
          SessionKeepsNumbers(c, e);
        }
      case Inside(s) =>
        if !s.Collect? && Timely(c, s) {
          CutoffsStay(c.room, s);
        }
      case Fire =>
        if Due(c) {
          CollectEffect(c.room, Some(PartEnd(c)));
          if c.live.elapsed < LR.Horizon(c.live.partDurationSec) {
            PartEndExact(c);
          }
        }
      case Pass(dt) =>
        LR.NextKeepsInv(c.live, LR.Tick(dt));
    }
  }

  lemma {:induction false} RunKeepsNumbers(c: Cutter, actions: seq<Action>)
    requires CutterInv(c) && CutsNumbered(c)
    ensures CutsNumbered(RunCutter(c, actions)) && CutterInv(RunCutter(c, actions))
    decreases |actions|
  {
    hide CutterInv, Act, CutsNumbered;
    if actions != [] {
      ActKeeps(c, actions[0]);
      NumbersStay(c, actions[0]);
      RunKeepsNumbers(Act(c, actions[0]), actions[1..]);
    }
  }

  /** In every run: when a boundary is due it fires, and when its cut has reached every track it can claim its part. */
  lemma BoundaryAchieves(policy: Policy, segmentDuration: int, segmentMaxBytes: int,
                         roomID: string, recordingID: string, sec: Int32, startedAt: Time, actions: seq<Action>)
    ensures var c := ReachedCutter(policy, segmentDuration, segmentMaxBytes, roomID, recordingID, sec, startedAt, actions);
            && (Due(c) ==> Act(c, Fire).fired && |Act(c, Fire).room.cuts| == |c.room.cuts| + 1)
            && (CutDone(c) && c.live.elapsed >= Wrap64(c.live.next * LR.PartDuration(c.live)) ==>
                  var c' := Act(c, Session(LR.Claim));
                  !c'.fired && |c'.live.quickParts| == |c.live.quickParts| + 1 && c'.room == c.room)
  {
    hide RoomInv, RunCutter, InOrder, LR.LivePart, Do, Wrap64;
    NewKeeps(policy, segmentDuration, segmentMaxBytes, roomID, recordingID, sec, startedAt);
    RunKeeps(NewCutter(policy, segmentDuration, segmentMaxBytes, roomID, recordingID, sec, startedAt), actions);
    var c := ReachedCutter(policy, segmentDuration, segmentMaxBytes, roomID, recordingID, sec, startedAt, actions);
    hide ReachedCutter;
    if Due(c) {
      CollectEffect(c.room, Some(PartEnd(c)));
    }
  }

  // ---------------------------------------------------------------- which tracks a cut reaches

  /** The boundary fires in this state and makes cut `k`: it collects every active track. */
  ghost predicate Collects(b: Cutter, a: Action, k: nat) {
    && a.Fire? && Due(b) && |b.room.cuts| == k < |Act(b, a).room.cuts|
    && Act(b, a).room.cuts[k] == PendingCut(b.room.tracks.Values, Some(PartEnd(b)))
  }

  /** The action takes track `h` off cut `k` and applies RotateAt to it, at the cutoff of that cut. */
  ghost predicate CutsTrack(b: Cutter, a: Action, k: nat, h: nat) {
    && k < |b.room.cuts| && h in b.room.cuts[k].left && h < |b.room.heap| == |Act(b, a).room.heap| && b.room.heap[h].Shaped()
    && a.Inside? && a.s.Rotate? && a.s.i == k && a.s.handle == h && Timely(b, a.s)
    && Act(b, a).room.heap[h] == TrackModel.RotateAt(b.room.heap[h], b.room.cuts[k].cutoff, a.s.now)
  }

  /** Some action of the run does that. */
  ghost predicate CutDuring(c: Cutter, actions: seq<Action>, k: nat, h: nat) {
    exists m :: 0 <= m < |actions| && CutsTrack(RunCutter(c, actions[..m]), actions[m], k, h)
  }

  lemma OnlyRotateTakes(r: Room, s: Step, k: nat, h: nat)
    requires RoomInv(r) && !s.Collect? && k < |r.cuts| && h in r.cuts[k].left
    ensures k < |Do(r, s).cuts|
    ensures h !in Do(r, s).cuts[k].left ==>
              s.Rotate? && s.i == k && s.handle == h && h < |r.heap| && r.heap[h].Shaped()
              && Do(r, s).heap == r.heap[h := TrackModel.RotateAt(r.heap[h], r.cuts[k].cutoff, s.now)]
  {
    hide HeapInv, LiveInv, CompletedInv, LogInv, CountInv, PhaseInv, TracksCounted,
         TrackInv, WritePacket, TrackModel.RotateAt, CloseAt, AfterMove, NewTrack, StatsOf, ActiveInfos, ConfigOf;
  }

  lemma ActTakes(c: Cutter, a: Action, k: nat, h: nat)
    requires CutterInv(c) && k < |c.room.cuts| && h in c.room.cuts[k].left
    ensures k < |Act(c, a).room.cuts|
    ensures h in Act(c, a).room.cuts[k].left || CutsTrack(c, a, k, h)
  {
    hide RoomInv, InOrder, Do, SeenAfter, Timely, LR.Next, TrackModel.RotateAt;
    match a {
      case Inside(s) =>
        if !s.Collect? && Timely(c, s) {
          OnlyRotateTakes(c.room, s, k, h);
        }
      case Fire =>
        if Due(c) {
          CollectEffect(c.room, Some(PartEnd(c)));
        }
      case Pass(_) =>
      case Session(_) =>
    }
  }

  lemma ActCollects(c: Cutter, a: Action)
    requires CutterInv(c)
    ensures |Act(c, a).room.cuts| == |c.room.cuts| || Collects(c, a, |c.room.cuts|)
    ensures |c.room.cuts| <= |Act(c, a).room.cuts| <= |c.room.cuts| + 1
  {
    hide RoomInv, InOrder, Do, SeenAfter, Timely, LR.Next;
    match a {
      case Inside(s) =>
        if !s.Collect? && Timely(c, s) {
          CutoffsStay(c.room, s);
        }
      case Fire =>
        if Due(c) {
          CollectEffect(c.room, Some(PartEnd(c)));
        }
      case Pass(_) =>
      case Session(_) =>
    }
  }

  lemma ShiftPrefix(c: Cutter, actions: seq<Action>, m: nat)
    requires m < |actions|
    ensures RunCutter(c, actions[..m + 1]) == RunCutter(Act(c, actions[0]), actions[1..][..m])
  {
    hide Act;
    assert actions[..m + 1][1..] == actions[1..][..m];
  }

  /** A track that is no longer on a cut has been cut. */
  lemma {:induction false} FindRotation(c: Cutter, actions: seq<Action>, k: nat, h: nat)
    requires CutterInv(c) && k < |c.room.cuts| && h in c.room.cuts[k].left
    ensures k < |RunCutter(c, actions).room.cuts|
    ensures h in RunCutter(c, actions).room.cuts[k].left || CutDuring(c, actions, k, h)
    decreases |actions|
  {
    hide CutterInv, Act, CutsTrack;
    if actions != [] {
      var c', rest := Act(c, actions[0]), actions[1..];
      ActKeeps(c, actions[0]);
      ActTakes(c, actions[0], k, h);
      if h in c'.room.cuts[k].left {
        FindRotation(c', rest, k, h);
        if CutDuring(c', rest, k, h) {
          var m :| 0 <= m < |rest| && CutsTrack(RunCutter(c', rest[..m]), rest[m], k, h);
          ShiftPrefix(c, actions, m);
          assert CutsTrack(RunCutter(c, actions[..m + 1]), actions[m + 1], k, h);
        }
      } else {
        assert actions[..0] == [];
        assert CutsTrack(RunCutter(c, actions[..0]), actions[0], k, h);
        CutsStay(c', rest);
      }
    }
  }

  lemma {:induction false} CutsStay(c: Cutter, actions: seq<Action>)
    requires CutterInv(c)
    ensures |c.room.cuts| <= |RunCutter(c, actions).room.cuts|
    decreases |actions|
  {
    hide CutterInv, Act, Collects;
    if actions != [] {
      ActKeeps(c, actions[0]);
      ActCollects(c, actions[0]);
      CutsStay(Act(c, actions[0]), actions[1..]);
    }
  }

  /** Every cut was made by a boundary. */
  lemma {:induction false} FindBoundary(c: Cutter, actions: seq<Action>, k: nat) returns (j: nat)
    requires CutterInv(c) && |c.room.cuts| <= k < |RunCutter(c, actions).room.cuts|
    ensures j < |actions| && Collects(RunCutter(c, actions[..j]), actions[j], k)
    decreases |actions|
  {
    hide CutterInv, Act, Collects;
    var c', rest := Act(c, actions[0]), actions[1..];
    ActKeeps(c, actions[0]);
    ActCollects(c, actions[0]);
    if k < |c'.room.cuts| {
      assert actions[..0] == [];
      j := 0;
    } else {
      j := FindBoundary(c', rest, k);
      ShiftPrefix(c, actions, j);
      j := j + 1;
    }
  }

  lemma {:induction false} RunCutterConcat(c: Cutter, first: seq<Action>, second: seq<Action>)
    ensures RunCutter(c, first + second) == RunCutter(RunCutter(c, first), second)
    decreases |first|
  {
    hide Act;
    if first == [] {
      assert first + second == second;
    } else {
      assert (first + second)[1..] == first[1..] + second;
      RunCutterConcat(Act(c, first[0]), first[1..], second);
    }
  }

  /** Action `j` of the run made cut `k` of every track active then, and each of them was cut later on. */
  ghost predicate MadeAndDone(c: Cutter, actions: seq<Action>, k: nat, j: nat)
    requires j < |actions|
  {
    var b := RunCutter(c, actions[..j]);
    Collects(b, actions[j], k) && forall h :: h in b.room.tracks.Values ==> CutDuring(Act(b, actions[j]), actions[j + 1..], k, h)
  }

  lemma CutWasMade(c: Cutter, actions: seq<Action>, k: nat) returns (j: nat)
    requires CutterInv(c) && c.room.cuts == [] && k < |RunCutter(c, actions).room.cuts| && RunCutter(c, actions).room.cuts[k].left == {}
    ensures j < |actions| && MadeAndDone(c, actions, k, j)
  {
    hide CutterInv, Act, CutDuring;
    j := FindBoundary(c, actions, k);
    var b := RunCutter(c, actions[..j]);
    RunKeeps(c, actions[..j]);
    ActKeeps(b, actions[j]);
    assert actions == actions[..j] + ([actions[j]] + actions[j + 1..]);
    assert ([actions[j]] + actions[j + 1..])[1..] == actions[j + 1..];
    RunCutterConcat(c, actions[..j], [actions[j]] + actions[j + 1..]);
    forall h | h in b.room.tracks.Values ensures CutDuring(Act(b, actions[j]), actions[j + 1..], k, h) {
      FindRotation(Act(b, actions[j]), actions[j + 1..], k, h);
    }
  }

  /** For every run before an integer overflows: cut k and live part k belong together. The part ends, to
      the nanosecond, where the boundary cut the room. Action `j` of the run is that boundary: it collected
      every active track, and each of them has been cut there by now. */
  lemma CutsMatchParts(policy: Policy, segmentDuration: int, segmentMaxBytes: int,
                       roomID: string, recordingID: string, sec: Int32, startedAt: Time, actions: seq<Action>, k: nat)
    returns (j: nat)
    requires var c := ReachedCutter(policy, segmentDuration, segmentMaxBytes, roomID, recordingID, sec, startedAt, actions);
             c.live.elapsed < LR.Horizon(c.live.partDurationSec) && k < |c.live.quickParts|
    ensures var c := ReachedCutter(policy, segmentDuration, segmentMaxBytes, roomID, recordingID, sec, startedAt, actions);
            && k < |c.room.cuts| && c.room.cuts[k].left == {}
            && c.room.cuts[k].cutoff == Some(c.startedAt + c.live.quickParts[k].endOffsetMs * Parts.MILLISECOND)
    ensures j < |actions|
            && MadeAndDone(NewCutter(policy, segmentDuration, segmentMaxBytes, roomID, recordingID, sec, startedAt), actions, k, j)
  {
    hide MadeAndDone, RoomInv, RunCutter, CutsNumbered, CutterInv;
    NewKeeps(policy, segmentDuration, segmentMaxBytes, roomID, recordingID, sec, startedAt);
    NewNumbered(policy, segmentDuration, segmentMaxBytes, roomID, recordingID, sec, startedAt);
    RunKeepsNumbers(NewCutter(policy, segmentDuration, segmentMaxBytes, roomID, recordingID, sec, startedAt), actions);
    PartEndsAtCut(ReachedCutter(policy, segmentDuration, segmentMaxBytes, roomID, recordingID, sec, startedAt, actions), k);
    j := CutOfReached(policy, segmentDuration, segmentMaxBytes, roomID, recordingID, sec, startedAt, actions, k);
  }

  lemma NewNumbered(policy: Policy, segmentDuration: int, segmentMaxBytes: int,
                    roomID: string, recordingID: string, sec: Int32, startedAt: Time)
    ensures CutsNumbered(NewCutter(policy, segmentDuration, segmentMaxBytes, roomID, recordingID, sec, startedAt))
  {
    hide LR.Horizon;
  }

  lemma PartEndsAtCut(c: Cutter, k: nat)
    requires CutterInv(c) && CutsNumbered(c) && c.live.elapsed < LR.Horizon(c.live.partDurationSec) && k < |c.live.quickParts|
    ensures k < |c.room.cuts| && c.room.cuts[k].left == {}
    ensures c.room.cuts[k].cutoff == Some(c.startedAt + c.live.quickParts[k].endOffsetMs * Parts.MILLISECOND)
  {
    hide RoomInv, InOrder, LR.LivePart, LR.StopInOrder, LR.Horizon;
    assert c.live.quickParts[k].index == c.live.quickParts[k].index && k + 1 < Parts.MAX_INT32;
    LR.FewParts(|c.live.quickParts|, c.live.partDurationSec);
    Parts.MultipleOrder(k + 1, |c.live.quickParts| + 1, LR.PartDuration(c.live));
    LR.LivePartExact(c.live.roomID, c.live.recordingID, k + 1, c.live.partDurationSec);
    Parts.Scale(k + 1, c.live.partDurationSec);
  }

  lemma CutOfReached(policy: Policy, segmentDuration: int, segmentMaxBytes: int,
                     roomID: string, recordingID: string, sec: Int32, startedAt: Time, actions: seq<Action>, k: nat)
    returns (j: nat)
    requires var c := ReachedCutter(policy, segmentDuration, segmentMaxBytes, roomID, recordingID, sec, startedAt, actions);
             k < |c.room.cuts| && c.room.cuts[k].left == {}
    ensures j < |actions|
            && MadeAndDone(NewCutter(policy, segmentDuration, segmentMaxBytes, roomID, recordingID, sec, startedAt), actions, k, j)
  {
    hide MadeAndDone, RoomInv, RunCutter, InOrder;
    NewKeeps(policy, segmentDuration, segmentMaxBytes, roomID, recordingID, sec, startedAt);
    j := CutWasMade(NewCutter(policy, segmentDuration, segmentMaxBytes, roomID, recordingID, sec, startedAt), actions, k);
  }
}
