/** What storage holds of a recording after any run, when two tracks can write to the same key, and what
    a reader then finds under the keys that the metadata lists. */
module RoomStore {
  import opened GoTypes
  import opened Brtp
  import opened TrackModel
  import opened TrackProofs
  import opened RoomModel
  import opened RoomProofs
  import opened RoomTheorems
  import Keys

  function Lookup(store: map<string, Bytes>, file: string): Option<Bytes> {
    if file in store then Some(store[file]) else None
  }

  /** What a reader finds under the keys of a segment list. */
  function Fetch(store: map<string, Bytes>, segments: seq<SegmentInfo>): (objects: seq<Option<Bytes>>)
    ensures |objects| == |segments|
    ensures forall i :: 0 <= i < |segments| ==> objects[i] == Lookup(store, segments[i].fileName)
  {
    seq(|segments|, i requires 0 <= i < |segments| => Lookup(store, segments[i].fileName))
  }

  function FinishedCount(t: Track): int {
    if t.closed then |t.segments| else |t.segments| - 1
  }

  /** Storage holds segment `i` under its key, or nothing when it has no packet. */
  ghost predicate Held(store: map<string, Bytes>, t: Track, i: nat) {
    t.Shaped() && i < |t.segments| && Lookup(store, t.segments[i].fileName) == StoredObject(t, i)
  }

  /** Storage holds what the finished segments of all tracks contain. */
  ghost predicate Intact(r: Room) {
    forall h, i :: 0 <= h < |r.heap| && 0 <= i < FinishedCount(r.heap[h]) ==> Held(r.store, r.heap[h], i)
  }

  // ---------------------------------------------------------------- one track moves on

  /** From `t` to `t'` at most the current segment was finished, and finished ones did not change. */
  ghost predicate Moves(t: Track, t': Track) {
    && TrackInv(t) && TrackInv(t') && t'.cfg == t.cfg
    && FinishedCount(t') == FinishedCount(t) + (if Finishes(t, t') then 1 else 0)
    && (t.closed ==> t' == t) && FinishedCount(t') <= |t.segments|
    && forall i :: 0 <= i < FinishedCount(t') ==> StoredObject(t', i) == StoredObject(t, i)
  }

  /** The file of a segment depends on its start and its packets only. */
  lemma SameObject(t: Track, t': Track, i: int)
    requires t.Shaped() && t'.Shaped() && t'.cfg == t.cfg && 0 <= i < |t.segments| && i < |t'.segments|
    requires t'.segments[i].startTime == t.segments[i].startTime && t'.contents[i] == t.contents[i]
    ensures StoredObject(t', i) == StoredObject(t, i)
  {
    hide FileOf, HeaderAt;
  }

  ghost predicate KeepsSegment(t: Track, t': Track, i: int) {
    && 0 <= i < |t.segments| && i < |t'.segments| && |t.contents| == |t.segments| && |t'.contents| == |t'.segments|
    && t'.segments[i].startTime == t.segments[i].startTime && t'.contents[i] == t.contents[i]
  }

  /** Finished segments keep their start and their packets. */
  ghost predicate Keeps(t: Track, t': Track) {
    forall i :: 0 <= i < FinishedCount(t') ==> KeepsSegment(t, t', i)
  }

  lemma KeepsMoves(t: Track, t': Track)
    requires TrackInv(t) && TrackInv(t') && t'.cfg == t.cfg && (t.closed ==> t' == t) && Keeps(t, t')
    requires FinishedCount(t') == FinishedCount(t) + (if Finishes(t, t') then 1 else 0) && FinishedCount(t') <= |t.segments|
    ensures Moves(t, t')
  {
    hide TrackInv, StoredObject, FinishedCount, Finishes;
    forall i | 0 <= i < FinishedCount(t') ensures StoredObject(t', i) == StoredObject(t, i) {
      assert KeepsSegment(t, t', i);
      SameObject(t, t', i);
    }
  }

  lemma RestartKeeps(t: Track, cut: Time, start: Time)
    requires t.Shaped()
    ensures var t' := StartSegment(CloseSegment(t, cut), start);
            |t'.segments| == |t.segments| + 1 && t'.closed == t.closed && forall i :: 0 <= i < |t.segments| ==> KeepsSegment(t, t', i)
  {
    hide Keys.SegmentFileName, SegmentFile;
  }

  lemma AppendKeeps(t: Track, p: Packet, written: Time)
    requires t.Shaped()
    ensures var t' := AppendPacket(t, p, written);
            t'.segments == t.segments && t'.closed == t.closed && forall i :: 0 <= i < |t.segments| - 1 ==> KeepsSegment(t, t', i)
  {
  }

  lemma KeepsItself(t: Track)
    requires t.Shaped()
    ensures forall i :: 0 <= i < |t.segments| ==> KeepsSegment(t, t, i)
  {
  }

  lemma KeepsTransitive(t: Track, u: Track, v: Track, i: int)
    requires KeepsSegment(t, u, i) && KeepsSegment(u, v, i)
    ensures KeepsSegment(t, v, i)
  {
  }

  lemma WriteMoves(t: Track, p: Packet, r: Reads)
    requires TrackInv(t)
    ensures Moves(t, WritePacket(t, p, r).0)
  {
    WritePacketInv(t, p, r);
    var t' := WritePacket(t, p, r).0;
    hide TrackInv, Moves, StartSegment, CloseSegment, AppendPacket, KeepsSegment, TooOld, TooBig;
    if t.closed {
      KeepsItself(t);
    } else {
      var open := if TooOld(t, r.check) || TooBig(t, |p.data|) then StartSegment(CloseSegment(t, r.cut), r.start) else t;
      RestartKeeps(t, r.cut, r.start);
      AppendKeeps(open, p, r.written);
      KeepsItself(t);
      forall i | 0 <= i < |open.segments| - 1 ensures KeepsSegment(t, t', i) {
        KeepsTransitive(t, open, t', i);
      }
    }
    KeepsMoves(t, t');
  }

  lemma RotateMoves(t: Track, cutoff: Option<Time>, now: Time)
    requires TrackInv(t)
    ensures Moves(t, RotateAt(t, cutoff, now))
  {
    RotateAtInv(t, cutoff, now);
    hide TrackInv, Moves, StartSegment, CloseSegment, CutPoint;
    if !t.closed {
      RestartKeeps(t, CutPoint(t, cutoff, now), CutPoint(t, cutoff, now));
    }
    KeepsMoves(t, RotateAt(t, cutoff, now));
  }

  lemma CloseMoves(t: Track, end: Option<Time>, closeNow: Time, endNow: Time)
    requires TrackInv(t)
    ensures Moves(t, CloseAt(t, end, closeNow, endNow))
  {
    CloseAtInv(t, end, closeNow, endNow);
    hide Keys.SegmentFileName, SegmentFile, Flatten, PayloadBytes, TrackInv, Moves;
    assert Keeps(t, CloseAt(t, end, closeNow, endNow));
    hide Keeps;
    KeepsMoves(t, CloseAt(t, end, closeNow, endNow));
  }

  // ---------------------------------------------------------------- the invariant of the store

  function NameOf(t: Track, i: nat): string {
    Keys.SegmentFileName(t.cfg.trackID, i + 1)
  }

  /** Each finished segment with packets is stored, and each stored object is one of them. */
  ghost predicate StoreInv(r: Room) {
    && (forall h, i :: 0 <= h < |r.heap| && 0 <= i < FinishedCount(r.heap[h]) && StoredObject(r.heap[h], i).Some? ==>
          Lookup(r.store, NameOf(r.heap[h], i)) == StoredObject(r.heap[h], i))
    && (forall f :: f in r.store ==> Kept(r, f))
  }

  /** The file belongs to a finished segment with packets. */
  ghost predicate Kept(r: Room, f: string) {
    exists h, i :: 0 <= h < |r.heap| && 0 <= i < FinishedCount(r.heap[h])
                   && StoredObject(r.heap[h], i).Some? && f == NameOf(r.heap[h], i)
  }

  /** Two finished segments with one file name are the same segment, when no two tracks share an ID. */
  lemma SameName(r: Room, h: nat, i: nat, k: nat, j: nat)
    requires IDsDistinct(r) && h < |r.heap| && k < |r.heap|
    ensures NameOf(r.heap[h], i) == NameOf(r.heap[k], j) <==> h == k && i == j
  {
    hide Keys.SegmentFileName;
    Keys.FileNameInjective(r.heap[h].cfg.trackID, i + 1, r.heap[k].cfg.trackID, j + 1);
  }

  lemma ListedName(t: Track, i: nat)
    requires TrackInv(t) && i < |t.segments|
    ensures t.segments[i].fileName == NameOf(t, i)
  {
  }

  lemma CountInRange(r: Room, h: nat)
    requires HeapInv(r) && h < |r.heap|
    ensures TrackInv(r.heap[h]) && r.heap[h].Shaped() && 0 <= FinishedCount(r.heap[h]) <= |r.heap[h].segments|
  {
    hide TrackInv;
  }

  lemma SegmentHeld(r: Room, h: nat, i: nat)
    requires HeapInv(r) && IDsDistinct(r) && StoreInv(r) && h < |r.heap| && i < FinishedCount(r.heap[h])
    ensures Held(r.store, r.heap[h], i)
  {
    hide HeapInv, NameOf, TrackInv, StoredObject, IDsDistinct;
    CountInRange(r, h);
    ListedName(r.heap[h], i);
    if StoredObject(r.heap[h], i) == None && NameOf(r.heap[h], i) in r.store {
      assert Kept(r, NameOf(r.heap[h], i));
      var k, j :| 0 <= k < |r.heap| && 0 <= j < FinishedCount(r.heap[k])
                  && StoredObject(r.heap[k], j).Some? && NameOf(r.heap[h], i) == NameOf(r.heap[k], j);
      SameName(r, h, i, k, j);
    }
  }

  lemma InvIsIntact(r: Room)
    requires HeapInv(r) && IDsDistinct(r) && StoreInv(r)
    ensures Intact(r)
  {
    hide HeapInv, IDsDistinct, StoreInv, Held;
    forall h, i | 0 <= h < |r.heap| && 0 <= i < FinishedCount(r.heap[h]) ensures Held(r.store, r.heap[h], i) {
      SegmentHeld(r, h, i);
    }
  }

  /** What AfterMove adds is the object of the newly finished segment. */
  lemma SavesFinished(store: map<string, Bytes>, t: Track, t': Track)
    requires Moves(t, t')
    ensures t.Shaped() && FinishedCount(t) >= 0
    ensures AfterMove(store, t, t') ==
            if Finishes(t, t') && StoredObject(t', FinishedCount(t)).Some?
            then store[NameOf(t', FinishedCount(t)) := StoredObject(t', FinishedCount(t)).value]
            else store
  {
    hide TrackInv, Keys.SegmentFileName, SegmentFile;
    if Finishes(t, t') {
      ListedName(t, FinishedCount(t));
    }
  }

  lemma MoveKeepsStore(r: Room, r': Room, h: nat, t: Track)
    requires HeapInv(r) && IDsDistinct(r) && StoreInv(r) && h < |r.heap| && Moves(r.heap[h], t)
    requires r'.heap == r.heap[h := t] && r'.store == AfterMove(r.store, r.heap[h], t)
    ensures IDsDistinct(r') && StoreInv(r')
  {
    hide HeapInv, NameOf, TrackInv, StoredObject, AfterMove, Finishes, FinishedCount;
    var t0, last := r.heap[h], FinishedCount(r.heap[h]);
    SavesFinished(r.store, t0, t);
    assert forall i :: NameOf(t, i) == NameOf(t0, i) by { NamesStay(t0, t); }
    assert IDsDistinct(r');
    forall k, i | 0 <= k < |r'.heap| && 0 <= i < FinishedCount(r'.heap[k]) && StoredObject(r'.heap[k], i).Some?
      ensures Lookup(r'.store, NameOf(r'.heap[k], i)) == StoredObject(r'.heap[k], i)
    {
      SameName(r', k, i, h, last);
    }
    forall f | f in r'.store ensures Kept(r', f) {
      if f in r.store {
        var k, i :| 0 <= k < |r.heap| && 0 <= i < FinishedCount(r.heap[k])
                    && StoredObject(r.heap[k], i).Some? && f == NameOf(r.heap[k], i);
        assert 0 <= i < FinishedCount(r'.heap[k]) && StoredObject(r'.heap[k], i).Some? && f == NameOf(r'.heap[k], i);
      } else {
        assert StoredObject(r'.heap[h], last).Some? && f == NameOf(r'.heap[h], last) && last < FinishedCount(r'.heap[h]);
      }
    }
  }

  lemma NamesAgree(t: Track, t': Track)
    requires t'.cfg.trackID == t.cfg.trackID
    ensures NameOf(t', 0) == NameOf(t, 0)
  {
  }

  lemma FirstFinished(t: Track, t': Track)
    requires Moves(t, t') && !t.closed && t'.closed
    ensures Finishes(t, t') && FinishedCount(t') == FinishedCount(t) + 1
    ensures StoredObject(t', FinishedCount(t)) == StoredObject(t, FinishedCount(t))
  {
    hide TrackInv, StoredObject;
  }

  lemma NamesStay(t: Track, t': Track)
    requires t'.cfg == t.cfg
    ensures forall i :: NameOf(t', i) == NameOf(t, i)
  {
  }

  // ---------------------------------------------------------------- every step keeps it

  /** The step adds a track. */
  predicate Adds(r: Room, s: Step) {
    s.AddTrack? && Unlocked(r) && r.status.Recording? && s.producer !in r.tracks && ShouldRecord(r.policy, s.kind)
  }

  /** Its track ID is not used in this recording yet. */
  ghost predicate FreshID(r: Room, s: Step)
    requires s.AddTrack?
  {
    forall h :: 0 <= h < |r.heap| ==> r.heap[h].cfg.trackID != ConfigOf(r, s).trackID
  }

  /** Every step of a run that adds a track uses a new ID. */
  ghost predicate FreshIDs(r: Room, steps: seq<Step>)
    decreases |steps|
  {
    steps == [] || ((Adds(r, steps[0]) ==> FreshID(r, steps[0])) && FreshIDs(Do(r, steps[0]), steps[1..]))
  }

  lemma AddKeepsStore(r: Room, s: Step)
    requires RoomInv(r) && IDsDistinct(r) && StoreInv(r) && Adds(r, s) && FreshID(r, s)
    ensures IDsDistinct(Do(r, s)) && StoreInv(Do(r, s))
  {
    hide RoomInv, NewTrack, ConfigOf, NameOf, StoredObject;
    var r', t := Do(r, s), NewTrack(ConfigOf(r, s), s.now);
    assert r'.heap == r.heap + [t] && r'.store == r.store;
    NewTrackCounters(ConfigOf(r, s), s.now);
    assert FinishedCount(t) == 0 by { OneSegment(ConfigOf(r, s), s.now); }
    hide Do, FinishedCount;
    assert forall h :: 0 <= h < |r.heap| ==> r'.heap[h] == r.heap[h];
    forall f | f in r'.store ensures Kept(r', f) {
      var h, i :| 0 <= h < |r.heap| && 0 <= i < FinishedCount(r.heap[h])
                  && StoredObject(r.heap[h], i).Some? && f == NameOf(r.heap[h], i);
      assert r'.heap[h] == r.heap[h];
    }
  }

  lemma OneSegment(cfg: TrackConfig, now: Time)
    ensures |NewTrack(cfg, now).segments| == 1 && !NewTrack(cfg, now).closed
  {
  }

  /** The track a step works on, under that track's lock. */
  function Touched(r: Room, s: Step): Option<nat> {
    match s
    case Write(i, _) => if i < |r.writes| then Some(r.writes[i].handle) else None
    case Rotate(i, h, _) => if i < |r.cuts| && h in r.cuts[i].left then Some(h) else None
    case RemoveTrack(producer, _, _, _) => if Unlocked(r) && producer in r.tracks then Some(r.tracks[producer]) else None
    case StopClose(producer, _, _) => if r.stop.Closing? && producer in r.stop.left then Some(r.stop.left[producer]) else None
    case _ => None
  }

  /** A step that adds no track moves at most one track on, and stores what that finishes. */
  lemma StepMoves(r: Room, s: Step)
    requires RoomInv(r) && !Adds(r, s)
    ensures var r' := Do(r, s);
            match Touched(r, s)
            case None => r'.heap == r.heap && r'.store == r.store
            case Some(h) =>
              && h < |r.heap| == |r'.heap| && Moves(r.heap[h], r'.heap[h])
              && r'.heap == r.heap[h := r'.heap[h]] && r'.store == AfterMove(r.store, r.heap[h], r'.heap[h])
  {
    hide HeapInv, LiveInv, CompletedInv, LogInv, CountInv, PhaseInv, TracksCounted, Moves,
         TrackInv, WritePacket, TrackModel.RotateAt, CloseAt, AfterMove, NewTrack, StatsOf, ActiveInfos, ConfigOf;
    if Touched(r, s).Some? {
      var h := Touched(r, s).value;
      HeapHas(r, h);
      match s
      case Write(i, clock) => WriteMoves(r.heap[h], r.writes[i].packet, clock);
      case Rotate(i, _, now) => RotateMoves(r.heap[h], r.cuts[i].cutoff, now);
      case RemoveTrack(_, end, closeNow, endNow) => CloseMoves(r.heap[h], end, closeNow, endNow);
      case StopClose(_, closeNow, endNow) => CloseMoves(r.heap[h], None, closeNow, endNow);
    }
  }

  lemma StepKeepsStore(r: Room, s: Step)
    requires RoomInv(r) && IDsDistinct(r) && StoreInv(r) && (Adds(r, s) ==> FreshID(r, s))
    ensures IDsDistinct(Do(r, s)) && StoreInv(Do(r, s))
  {
    hide HeapInv, LiveInv, CompletedInv, LogInv, CountInv, PhaseInv, TracksCounted, WellFormed, Do, Adds,
         FreshID, IDsDistinct, Moves, AfterMove, Touched;
    if Adds(r, s) {
      AddKeepsStore(r, s);
    } else {
      StepMoves(r, s);
      var r' := Do(r, s);
      match Touched(r, s)
      case None => SameStore(r, r');
      case Some(h) => MoveKeepsStore(r, r', h, r'.heap[h]);
    }
  }

  lemma SameStore(r: Room, r': Room)
    requires IDsDistinct(r) && StoreInv(r) && r'.heap == r.heap && r'.store == r.store
    ensures IDsDistinct(r') && StoreInv(r')
  {
    hide NameOf, StoredObject, FinishedCount;
    forall f | f in r'.store ensures Kept(r', f) {
      assert Kept(r, f);
    }
  }

  lemma {:induction false} RunKeepsStore(r: Room, steps: seq<Step>)
    requires RoomInv(r) && IDsDistinct(r) && StoreInv(r) && FreshIDs(r, steps)
    ensures IDsDistinct(RunRoom(r, steps)) && StoreInv(RunRoom(r, steps))
    decreases |steps|
  {
    hide RoomInv, Do, IDsDistinct, StoreInv, Adds, FreshID;
    if steps != [] {
      StepInv(r, steps[0]);
      StepKeepsStore(r, steps[0]);
      RunKeepsStore(Do(r, steps[0]), steps[1..]);
    }
  }

  lemma ReachedStore(policy: Policy, segmentDuration: int, segmentMaxBytes: int, steps: seq<Step>)
    requires FreshIDs(NewRoom(policy, segmentDuration, segmentMaxBytes), steps)
    ensures var r := ReachedRoom(policy, segmentDuration, segmentMaxBytes, steps);
            RoomInv(r) && IDsDistinct(r) && StoreInv(r) && Intact(r) && Legible(r)
  {
    hide RoomInv, RunRoom, FreshIDs, Intact, Legible, IDsDistinct, StoreInv;
    var r0 := NewRoom(policy, segmentDuration, segmentMaxBytes);
    NewStore(policy, segmentDuration, segmentMaxBytes);
    NewRoomInv(policy, segmentDuration, segmentMaxBytes);
    RunKeepsStore(r0, steps);
    RunRoomInv(r0, steps);
    HeapOf(RunRoom(r0, steps));
    InvIsIntact(RunRoom(r0, steps));
    IntactIsLegible(RunRoom(r0, steps));
  }

  lemma HeapOf(r: Room)
    requires RoomInv(r)
    ensures HeapInv(r)
  {
  }

  lemma NewStore(policy: Policy, segmentDuration: int, segmentMaxBytes: int)
    ensures IDsDistinct(NewRoom(policy, segmentDuration, segmentMaxBytes))
    ensures StoreInv(NewRoom(policy, segmentDuration, segmentMaxBytes))
  {
  }

  // ---------------------------------------------------------------- reading back

  lemma {:induction false} FreshIDsAppend(r: Room, steps: seq<Step>, s: Step)
    ensures FreshIDs(r, steps + [s])
       <==> FreshIDs(r, steps) && (Adds(RunRoom(r, steps), s) ==> FreshID(RunRoom(r, steps), s))
    decreases |steps|
  {
    hide Do, Adds, FreshID;
    if steps == [] {
      assert [] + [s] == [s] && [s][1..] == [];
      assert FreshIDs(Do(r, s), []);
    } else {
      assert (steps + [s])[1..] == steps[1..] + [s];
      FreshIDsAppend(Do(r, steps[0]), steps[1..], s);
    }
  }

  /** A reader who follows the track's segment list gets what the track's own files hold. */
  ghost predicate Readable(store: map<string, Bytes>, t: Track) {
    t.Shaped() && ReadBack(Fetch(store, t.segments)) == ReadBack(StoredObjects(t, |t.segments|))
  }

  /** So it is for every closed track. */
  ghost predicate Legible(r: Room) {
    forall h :: 0 <= h < |r.heap| && r.heap[h].closed ==> Readable(r.store, r.heap[h])
  }

  lemma HeldReads(store: map<string, Bytes>, t: Track)
    requires t.Shaped() && forall i :: 0 <= i < |t.segments| ==> Held(store, t, i)
    ensures Fetch(store, t.segments) == StoredObjects(t, |t.segments|) && Readable(store, t)
  {
    hide ReadBack, StoredObject, Lookup;
    forall i | 0 <= i < |t.segments| ensures Fetch(store, t.segments)[i] == StoredObjects(t, |t.segments|)[i] {
      assert Held(store, t, i);
    }
  }

  lemma IntactIsLegible(r: Room)
    requires HeapInv(r) && Intact(r)
    ensures Legible(r)
  {
    hide HeapInv, Held, Readable;
    forall h | 0 <= h < |r.heap| && r.heap[h].closed ensures Readable(r.store, r.heap[h]) {
      CountInRange(r, h);
      HeldReads(r.store, r.heap[h]);
    }
  }

  /** Read-back of one closed track through the keys its segment list names. */
  lemma ReadsBackIffFits(r: Room, h: nat)
    requires RoomInv(r) && h < |r.heap| && Readable(r.store, r.heap[h])
    ensures ReadBack(Fetch(r.store, r.heap[h].segments)) == ForTrack(r.accepted, h) <==> AllFit(ForTrack(r.accepted, h))
  {
    assert Flatten(r.heap[h].contents) == ForTrack(r.accepted, h) by { LogOf(r, h); }
    hide *;
    ReadsIs(r.store, r.heap[h]);
    ReadBackIffFits(r.heap[h]);
  }

  lemma LogOf(r: Room, h: nat)
    requires RoomInv(r) && h < |r.heap|
    ensures Flatten(r.heap[h].contents) == ForTrack(r.accepted, h)
  {
    hide HeapInv, LiveInv, CompletedInv, PhaseInv, CountInv, Flatten, ForTrack;
  }

  lemma ReadsIs(store: map<string, Bytes>, t: Track)
    requires Readable(store, t)
    ensures t.Shaped() && ReadBack(Fetch(store, t.segments)) == ReadBack(StoredObjects(t, |t.segments|))
  {
  }

  /** End to end, for every run in which no track ID is used twice: each closed track reads back from
      storage as the packets the room accepted for it, if and only if they all fit the length field. */
  lemma RoomEndToEnd(policy: Policy, segmentDuration: int, segmentMaxBytes: int, steps: seq<Step>, h: nat)
    requires FreshIDs(NewRoom(policy, segmentDuration, segmentMaxBytes), steps)
    requires var r := ReachedRoom(policy, segmentDuration, segmentMaxBytes, steps); h < |r.heap| && r.heap[h].closed
    ensures var r := ReachedRoom(policy, segmentDuration, segmentMaxBytes, steps);
            ReadBack(Fetch(r.store, r.heap[h].segments)) == ForTrack(r.accepted, h) <==> AllFit(ForTrack(r.accepted, h))
  {
    var r := ReachedRoom(policy, segmentDuration, segmentMaxBytes, steps);
    hide RoomInv, Intact, StoreInv, IDsDistinct, FreshIDs, ForTrack, ReadBack, AllFit, Readable;
    ReachedStore(policy, segmentDuration, segmentMaxBytes, steps);
    hide ReachedRoom;
    assert Legible(r) && Readable(r.store, r.heap[h]);
    ReadsBackIffFits(r, h);
  }

  // ---------------------------------------------------------------- when an ID is used twice

  /** A track that starts, takes one packet and is closed, all at `now`. */
  lemma OnePacketTrack(cfg: TrackConfig, now: Time, p: Packet)
    requires cfg.segmentMaxBytes <= 0 || |p.data| < cfg.segmentMaxBytes
    ensures var t0 := NewTrack(cfg, now);
            var (t1, ok) := WritePacket(t0, p, Reads(now, now, now, now));
            t1.Shaped() &&
            var t2 := CloseAt(t1, None, now, now);
            && ok && !Finishes(t0, t1) && Finishes(t1, t2)
            && t2.Shaped() && t2.closed && t2.cfg == cfg && |t2.segments| == 1
            && t1.segments[0].fileName == NameOf(t2, 0)
            && StoredObject(t2, 0) == Some(FileOf(HeaderAt(cfg, now), [p]))
            && t1.contents == [[p]] && SegmentFile(t1, 0) == FileOf(HeaderAt(cfg, now), [p])
  {
    hide FileOf, HeaderAt, Keys.SegmentFileName;
    assert [] + [p] == [p];
  }

  /** What recording one packet on a fresh track and removing it does to the room. */
  ghost predicate RecordedOne(r: Room, r': Room, producer: string, n: nat, p: Packet, file: Bytes) {
    && n < |r.heap| == |r'.heap| && r'.heap == r.heap[n := r'.heap[n]] && r'.heap[n].closed && FinishedCount(r'.heap[n]) == 1
    && r'.heap[n].cfg == r.heap[n].cfg && StoredObject(r'.heap[n], 0) == Some(file)
    && r'.store == r.store[NameOf(r'.heap[n], 0) := file]
    && r'.accepted == r.accepted + [(n, p)]
    && r'.tracks == r.tracks - {producer} && Unlocked(r') && r'.status == r.status && r'.writes == r.writes
    && r'.policy == r.policy && r'.segmentDuration == r.segmentDuration && r'.segmentMaxBytes == r.segmentMaxBytes
  }

  function RecordSteps(r: Room, producer: string, p: Packet, now: Time): seq<Step> {
    [LookUp(producer, p), Step.Write(|r.writes|, Reads(now, now, now, now)), RemoveTrack(producer, None, now, now)]
  }

  lemma RecordOne(r: Room, producer: string, n: nat, p: Packet, now: Time)
    requires RoomInv(r) && Unlocked(r) && r.status.Recording? && producer in r.tracks && r.tracks[producer] == n
    requires n < |r.heap| && r.heap[n] == NewTrack(r.heap[n].cfg, now)
    requires r.heap[n].cfg.segmentMaxBytes <= 0 || |p.data| < r.heap[n].cfg.segmentMaxBytes
    ensures var r' := RunRoom(r, RecordSteps(r, producer, p, now));
            RoomInv(r') && RecordedOne(r, r', producer, n, p, FileOf(HeaderAt(r.heap[n].cfg, now), [p]))
  {
    hide RoomInv, NewTrack, WritePacket, CloseAt, FileOf, HeaderAt, Finishes, SegmentFile, NameOf, StoredObject,
         DoAddTrack, DoCollect, DoRotate, DoStopMark, DoStopLock, DoStopClose, DoStopUnlock, DoStopSnapshot, DoStopMetadata, DoStopFinish;
    var i, at := |r.writes|, Reads(now, now, now, now);
    OnePacketTrack(r.heap[n].cfg, now, p);
    var a, b, c := LookUp(producer, p), Step.Write(i, at), RemoveTrack(producer, None, now, now);
    RunThree(r, a, b, c);
    RunRoomInv(r, [a, b, c]);
    var r1 := Do(r, a);
    assert r1 == r.(writes := r.writes + [PendingWrite(n, p)]);
    var r2 := Do(r1, b);
    assert r1.writes[..i] + r1.writes[i + 1..] == r.writes;
    var t1 := WritePacket(r.heap[n], p, at).0;
    assert r2 == r.(heap := r.heap[n := t1], accepted := r.accepted + [(n, p)]);
    var t2 := CloseAt(t1, None, now, now);
    var r3 := Do(r2, c);
    assert r3.heap == r.heap[n := t2] && r3.store == AfterMove(r.store, t1, t2);
    assert AfterMove(r.store, t1, t2) == r.store[NameOf(t2, 0) := FileOf(HeaderAt(r.heap[n].cfg, now), [p])];
  }

  lemma {:induction false} NoAddsFresh(r: Room, steps: seq<Step>)
    requires forall i :: 0 <= i < |steps| ==> !steps[i].AddTrack?
    ensures FreshIDs(r, steps)
    decreases |steps|
  {
    hide Do;
    if steps != [] {
      NoAddsFresh(Do(r, steps[0]), steps[1..]);
    }
  }

  /** The packets in an object. */
  function PacketsIn(o: Option<Bytes>): seq<Packet> {
    if o.Some? then DecodeFile(o.value).packets else []
  }

  lemma ReadBackLast(objects: seq<Option<Bytes>>, o: Option<Bytes>)
    ensures ReadBack(objects + [o]) == ReadBack(objects) + PacketsIn(o)
  {
    hide DecodeFile;
    assert (objects + [o])[..|objects|] == objects;
  }

  lemma {:induction false} ReadBackFront(o: Option<Bytes>, objects: seq<Option<Bytes>>)
    ensures ReadBack([o] + objects) == PacketsIn(o) + ReadBack(objects)
  {
    assert ReadBack([]) == [];
    hide ReadBack, PacketsIn;
    if objects == [] {
      ReadBackLast([], o);
      assert [o] + [] == [] + [o];
    } else {
      var front, last := objects[..|objects| - 1], objects[|objects| - 1];
      assert objects == front + [last];
      ReadBackLast(front, last);
      ReadBackFront(o, front);
      ReadBackLast([o] + front, last);
      Associates([o], front, [last]);
      Associates(PacketsIn(o), ReadBack(front), PacketsIn(last));
    }
  }

  /** A reader of the track meets another object in place of the first one. */
  lemma Clobbered(store: map<string, Bytes>, store': map<string, Bytes>, t: Track, file: Bytes)
    requires TrackInv(t) && t.Shaped() && forall i :: 0 <= i < |t.segments| ==> Held(store, t, i)
    requires Lookup(store', NameOf(t, 0)) == Some(file)
    requires forall f :: f != NameOf(t, 0) ==> Lookup(store', f) == Lookup(store, f)
    requires PacketsIn(Some(file)) != PacketsIn(StoredObject(t, 0))
    ensures !Readable(store', t)
  {
    hide TrackInv, Lookup, StoredObject, NameOf, PacketsIn, ReadBack;
    var a, b := Fetch(store', t.segments), StoredObjects(t, |t.segments|);
    forall i | 0 <= i < |t.segments| ensures a[i] == if i == 0 then Some(file) else b[i] {
      ListedName(t, i);
      NameAt(t, i);
      assert Held(store, t, i);
    }
    assert a[1..] == b[1..] && a == [a[0]] + a[1..] && b == [b[0]] + b[1..];
    ReadBackFront(a[0], a[1..]);
    ReadBackFront(b[0], b[1..]);
    var rest := ReadBack(a[1..]);
    if PacketsIn(a[0]) + rest == PacketsIn(b[0]) + rest {
      SamePrefix(PacketsIn(a[0]), PacketsIn(b[0]), rest);
    }
  }

  lemma SamePrefix(a: seq<Packet>, b: seq<Packet>, rest: seq<Packet>)
    requires a + rest == b + rest
    ensures a == b
  {
    assert |a + rest| == |b + rest|;
    assert a == (a + rest)[..|a|] == (b + rest)[..|b|] == b;
  }

  lemma NameAt(t: Track, i: nat)
    ensures NameOf(t, i) == NameOf(t, 0) <==> i == 0
  {
    hide Keys.SegmentFileName;
    Keys.FileNameInjective(t.cfg.trackID, i + 1, t.cfg.trackID, 1);
  }

  lemma SomeReuse(r: Room, s: Step) returns (h: nat)
    requires s.AddTrack? && !FreshID(r, s)
    ensures h < |r.heap| && r.heap[h].cfg.trackID == ConfigOf(r, s).trackID
  {
    h :| 0 <= h < |r.heap| && r.heap[h].cfg.trackID == ConfigOf(r, s).trackID;
  }

  /** The room after an effective AddTrack. */
  lemma AddedRoom(r: Room, s: Step)
    requires RoomInv(r) && Adds(r, s)
    ensures var r1, cfg := Do(r, s), ConfigOf(r, s);
            && RoomInv(r1) && Unlocked(r1) && r1.status.Recording? && r1.writes == r.writes && r1.accepted == r.accepted
            && r1.heap == r.heap + [NewTrack(cfg, s.now)] && r1.tracks == r.tracks[s.producer := |r.heap|]
            && r1.store == r.store && NewTrack(cfg, s.now).cfg == cfg && cfg.segmentMaxBytes == r.segmentMaxBytes
            && r1.policy == r.policy && r1.segmentDuration == r.segmentDuration && r1.segmentMaxBytes == r.segmentMaxBytes
  {
    hide RoomInv, NewTrack;
    StepInv(r, s);
    NewTrackCounters(ConfigOf(r, s), s.now);
  }

  lemma OpenIsActive(r: Room, h: nat)
    requires RoomInv(r) && Unlocked(r) && h < |r.heap| && !r.heap[h].closed
    ensures r.heap[h].cfg.producerID in r.tracks && r.tracks[r.heap[h].cfg.producerID] == h
  {
    hide HeapInv, CompletedInv, LogInv, CountInv, PhaseInv;
  }

  lemma RemoveOne(r: Room, q: string, now: Time)
    requires RoomInv(r) && Unlocked(r) && q in r.tracks
    ensures r.tracks[q] < |r.heap| && TrackInv(r.heap[r.tracks[q]])
    ensures var h, r' := r.tracks[q], RunRoom(r, [RemoveTrack(q, None, now, now)]);
            var t := CloseAt(r.heap[h], None, now, now);
            RoomInv(r') && r'.heap == r.heap[h := t] && r'.store == AfterMove(r.store, r.heap[h], t)
  {
    hide RoomInv, CloseAt, AfterMove, TrackInv;
    HandlesDistinct(r);
    HeapOf(r);
    HeapHas(r, r.tracks[q]);
    RemoveEffect(r, q, None, now, now);
    RunRoomInv(r, [RemoveTrack(q, None, now, now)]);
  }

  /** The removal of track `h`, if it is still open. */
  ghost function Removed(r: Room, h: nat, now: Time): seq<Step>
    requires h < |r.heap|
  {
    if r.heap[h].closed then [] else [RemoveTrack(r.heap[h].cfg.producerID, None, now, now)]
  }

  /** What the removal does to heap and store. */
  ghost predicate ClosedOff(r: Room, r': Room, h: nat, t: Track) {
    && h < |r.heap| && Moves(r.heap[h], t) && t.closed && r'.heap == r.heap[h := t]
    && r'.store == AfterMove(r.store, r.heap[h], t) && r'.accepted == r.accepted
  }

  lemma RemoveKeepsLog(r: Room, q: string, now: Time)
    requires RoomInv(r)
    ensures Do(r, RemoveTrack(q, None, now, now)).accepted == r.accepted
  {
    hide RoomInv, CloseAt, AfterMove;
  }

  lemma CloseOff(r: Room, h: nat, now: Time)
    requires RoomInv(r) && Unlocked(r) && h < |r.heap|
    ensures var r' := RunRoom(r, Removed(r, h, now));
            RoomInv(r') && h < |r'.heap| && ClosedOff(r, r', h, r'.heap[h])
  {
    hide RoomInv, CloseAt, AfterMove, TrackInv, Moves, Do;
    HeapOf(r);
    HeapHas(r, h);
    if r.heap[h].closed {
      StaysPut(r.heap[h], r.store);
    } else {
      OpenIsActive(r, h);
      var q := r.heap[h].cfg.producerID;
      RemoveOne(r, q, now);
      CloseMoves(r.heap[h], None, now, now);
      IsClosed(r.heap[h], now);
      RemoveKeepsLog(r, q, now);
      assert [RemoveTrack(q, None, now, now)][1..] == [];
    }
  }

  lemma StaysPut(t: Track, store: map<string, Bytes>)
    requires TrackInv(t) && t.closed
    ensures Moves(t, t) && AfterMove(store, t, t) == store
  {
    hide StoredObject;
  }

  lemma IsClosed(t: Track, now: Time)
    requires t.Shaped()
    ensures CloseAt(t, None, now, now).closed
  {
  }

  /** A packet whose file decodes to something else than the object `o`. */
  function OtherThan(o: Option<Bytes>): Packet {
    if PacketsIn(o) == [Packet([], 0)] then Packet([], 1) else Packet([], 0)
  }

  lemma OtherReads(h: FileHeader, o: Option<Bytes>)
    requires h.Shaped() && h.magic == MAGIC && h.version == FORMAT_VERSION
    ensures PacketsIn(Some(FileOf(h, [OtherThan(o)]))) == [OtherThan(o)] != PacketsIn(o)
  {
    hide FileOf, DecodeFile;
    FileRoundTrip(h, [OtherThan(o)]);
  }

  /** Storing `file` first and then finishing a segment under another name is the same as doing it in the
      other order. */
  lemma StoreThenMove(store: map<string, Bytes>, t: Track, t': Track, f: string, file: Bytes)
    requires Moves(t, t') && (Finishes(t, t') && StoredObject(t', FinishedCount(t)).Some? ==> f != NameOf(t', FinishedCount(t)))
    ensures AfterMove(store[f := file], t, t') == AfterMove(store, t, t')[f := file]
  {
    hide Moves, AfterMove, StoredObject, NameOf;
    SavesFinished(store, t, t');
    SavesFinished(store[f := file], t, t');
  }

  /** Another object under the key of the first segment of a track that has finished it. */
  lemma FinishedIsClobbered(r: Room, h: nat, t: Track, file: Bytes)
    requires HeapInv(r) && IDsDistinct(r) && StoreInv(r) && h < |r.heap| && Moves(r.heap[h], t) && t.closed
    requires FinishedCount(r.heap[h]) > 0 && PacketsIn(Some(file)) != PacketsIn(StoredObject(r.heap[h], 0))
    ensures !Readable(AfterMove(r.store[NameOf(t, 0) := file], r.heap[h], t), t)
  {
    hide PacketsIn, StoredObject, NameOf, AfterMove, Finishes, TrackInv, HeapInv, IDsDistinct, StoreInv, Held, Readable;
    var r' := r.(heap := r.heap[h := t], store := AfterMove(r.store, r.heap[h], t));
    MoveKeepsStore(r, r', h, t);
    assert HeapInv(r') by { MovedHeap(r, r', h, t); }
    forall i | 0 <= i < |t.segments| ensures Held(r'.store, t, i) {
      SegmentHeld(r', h, i);
    }
    NameAt(t, FinishedCount(r.heap[h]));
    StoreThenMove(r.store, r.heap[h], t, NameOf(t, 0), file);
    CountInRange(r', h);
    Clobbered(r'.store, r'.store[NameOf(t, 0) := file], t, file);
  }

  lemma MovedHeap(r: Room, r': Room, h: nat, t: Track)
    requires HeapInv(r) && h < |r.heap| && Moves(r.heap[h], t) && r'.heap == r.heap[h := t] && r'.policy == r.policy
    ensures HeapInv(r')
  {
    hide TrackInv, StoredObject, Finishes, FinishedCount;
  }

  /** The track is still in its first segment when another one has stored its only object under the key of
      that segment: closing it makes one of the two read wrong. */
  lemma FirstCloseClobbers(store: map<string, Bytes>, t: Track, t': Track, u: Track, file: Bytes)
    requires Moves(t, t') && t'.closed && !t.closed && FinishedCount(t) == 0
    requires TrackInv(u) && u.closed && |u.segments| == 1 && StoredObject(u, 0) == Some(file) && NameOf(u, 0) == NameOf(t', 0)
    requires Lookup(store, NameOf(t', 0)) == None && PacketsIn(Some(file)) != PacketsIn(StoredObject(t, 0))
    ensures var s := AfterMove(store[NameOf(t', 0) := file], t, t');
            !Readable(s, u) || !Readable(s, t')
  {
    hide PacketsIn, StoredObject, NameOf, AfterMove, TrackInv, Readable;
    var put := store[NameOf(t', 0) := file];
    var s := AfterMove(put, t, t');
    FirstFinished(t, t');
    SavesFinished(put, t, t');
    ListedName(u, 0);
    ListedName(t', 0);
    var own := StoredObject(t', 0);
    if own.Some? {
      assert Held(put, u, 0);
      Clobbered(put, s, u, own.value);
    } else {
      assert Held(store, t', 0);
      Clobbered(store, s, t', file);
    }
  }

  lemma NotStoredYet(r: Room, h: nat, i: nat)
    requires IDsDistinct(r) && StoreInv(r) && h < |r.heap| && i >= FinishedCount(r.heap[h])
    ensures Lookup(r.store, NameOf(r.heap[h], i)) == None
  {
    hide NameOf, StoredObject, IDsDistinct;
    if NameOf(r.heap[h], i) in r.store {
      assert Kept(r, NameOf(r.heap[h], i));
      var k, j :| 0 <= k < |r.heap| && 0 <= j < FinishedCount(r.heap[k])
                  && StoredObject(r.heap[k], j).Some? && NameOf(r.heap[h], i) == NameOf(r.heap[k], j);
      SameName(r, h, i, k, j);
    }
  }

  /** The continuation after an added track that reuses an ID: record one packet on it, remove it, and
      remove the track that had the ID before. */
  ghost predicate Breaks(r: Room, s: Step, steps: seq<Step>)
    requires s.AddTrack?
  {
    var r1 := Do(r, s);
    var r' := RunRoom(r1, steps);
    && FreshIDs(r1, steps) && RoomInv(r') && !Legible(r')
    && exists p: Packet :: |p.data| == 0 && r'.accepted == r.accepted + [(|r.heap|, p)]
  }

  /** An added track that reuses an ID: some way to go on makes a closed track read wrong. */
  lemma ReuseBreaks(r: Room, s: Step) returns (steps: seq<Step>)
    requires RoomInv(r) && IDsDistinct(r) && StoreInv(r) && Adds(r, s) && !FreshID(r, s)
    ensures Breaks(r, s, steps)
  {
    hide RoomInv, IDsDistinct, StoreInv, Do, NewTrack, FileOf, HeaderAt, Finishes, SegmentFile, NameOf, StoredObject, TrackInv,
         RunRoom, FreshIDs, FreshID, Moves, AfterMove, PacketsIn, OtherThan, HeapInv, Readable;
    var h := SomeReuse(r, s);
    var r1, n, cfg := Do(r, s), |r.heap|, ConfigOf(r, s);
    AddedRoom(r, s);
    var p := OtherThan(StoredObject(r.heap[h], 0));
    assert |p.data| == 0 by { OtherIsEmpty(StoredObject(r.heap[h], 0)); }
    OtherReads(HeaderAt(cfg, s.now), StoredObject(r.heap[h], 0));
    var file := FileOf(HeaderAt(cfg, s.now), [p]);
    var first := RecordSteps(r1, s.producer, p, s.now);
    RecordOne(r1, s.producer, n, p, s.now);
    var r2 := RunRoom(r1, first);
    assert r2.heap[h] == r.heap[h] && h != n;
    var second := Removed(r2, h, s.now);
    CloseOff(r2, h, s.now);
    RunConcat(r1, first, second);
    steps := first + second;
    NoAddsFresh(r1, steps);
    var r3 := RunRoom(r2, second);
    var t := r3.heap[h];
    NamesOfBoth(r, r2, h, n, t);
    HeapOf(r);
    HeapOf(r3);
    HeapHas(r3, n);
    assert r3.store == AfterMove(r.store[NameOf(t, 0) := file], r.heap[h], t);
    if FinishedCount(r.heap[h]) > 0 {
      FinishedIsClobbered(r, h, t, file);
      assert !Readable(r3.store, r3.heap[h]);
    } else {
      CountInRange(r, h);
      NotStoredYet(r, h, 0);
      FirstCloseClobbers(r.store, r.heap[h], t, r3.heap[n], file);
      assert !Readable(r3.store, r3.heap[h]) || !Readable(r3.store, r3.heap[n]);
    }
  }

  lemma OtherIsEmpty(o: Option<Bytes>)
    ensures |OtherThan(o).data| == 0
  {
    hide PacketsIn;
  }

  lemma NamesOfBoth(r: Room, r2: Room, h: nat, n: nat, t: Track)
    requires h < |r.heap| <= |r2.heap| && n < |r2.heap| && r2.heap[h] == r.heap[h] && Moves(r2.heap[h], t)
    requires r2.heap[n].cfg.trackID == r.heap[h].cfg.trackID
    ensures NameOf(r2.heap[n], 0) == NameOf(t, 0) == NameOf(r.heap[h], 0)
  {
    hide StoredObject, TrackInv;
    NamesAgree(r2.heap[h], t);
    NamesAgree(r2.heap[h], r2.heap[n]);
  }

  /** However a run goes on from here without reusing an ID, closed tracks read back as their own files. */
  ghost predicate StaysLegible(r: Room) {
    forall steps :: FreshIDs(r, steps) ==> Legible(RunRoom(r, steps))
  }

  lemma StaysFromInv(r: Room)
    requires RoomInv(r) && IDsDistinct(r) && StoreInv(r)
    ensures StaysLegible(r)
  {
    hide RoomInv, RunRoom, FreshIDs, Legible, Intact, IDsDistinct, StoreInv;
    forall steps | FreshIDs(r, steps) ensures Legible(RunRoom(r, steps)) {
      RunKeepsStore(r, steps);
      RunRoomInv(r, steps);
      HeapOf(RunRoom(r, steps));
      InvIsIntact(RunRoom(r, steps));
      IntactIsLegible(RunRoom(r, steps));
    }
  }

  /** The exact guard on AddTrack: after any run that kept it so far, adding a track leaves every closed
      track legible in every continuation if and only if its track ID is new in the recording. */
  lemma AddSafeIff(policy: Policy, segmentDuration: int, segmentMaxBytes: int, steps: seq<Step>, s: Step)
    requires FreshIDs(NewRoom(policy, segmentDuration, segmentMaxBytes), steps)
    requires Adds(ReachedRoom(policy, segmentDuration, segmentMaxBytes, steps), s)
    ensures var r := ReachedRoom(policy, segmentDuration, segmentMaxBytes, steps);
            StaysLegible(Do(r, s)) <==> FreshID(r, s)
  {
    hide RoomInv, RunRoom, FreshIDs, Intact, Legible, IDsDistinct, StoreInv, FreshID, Do, StaysLegible, Breaks;
    var r := ReachedRoom(policy, segmentDuration, segmentMaxBytes, steps);
    ReachedStore(policy, segmentDuration, segmentMaxBytes, steps);
    hide ReachedRoom;
    if FreshID(r, s) {
      StepInv(r, s);
      StepKeepsStore(r, s);
      StaysFromInv(Do(r, s));
    } else {
      var more := ReuseBreaks(r, s);
      NotStaying(r, s, more);
    }
  }

  lemma NotStaying(r: Room, s: Step, steps: seq<Step>)
    requires s.AddTrack? && Breaks(r, s, steps)
    ensures !StaysLegible(Do(r, s))
  {
    hide FreshIDs, Legible, RunRoom, Do, RoomInv;
  }

  /** Every closed track whose packets fit the length field reads back as the packets accepted for it. */
  ghost predicate ReadsBack(r: Room) {
    forall h :: 0 <= h < |r.heap| && r.heap[h].closed && AllFit(ForTrack(r.accepted, h)) ==>
      ReadBack(Fetch(r.store, r.heap[h].segments)) == ForTrack(r.accepted, h)
  }

  ghost predicate StaysReadingBack(r: Room) {
    forall steps :: FreshIDs(r, steps) ==> ReadsBack(RunRoom(r, steps))
  }

  ghost predicate AcceptedFit(r: Room) {
    forall i :: 0 <= i < |r.accepted| ==> Fits(r.accepted[i].1)
  }

  lemma {:induction false} LogFits(log: seq<(nat, Packet)>, h: nat)
    requires forall i :: 0 <= i < |log| ==> Fits(log[i].1)
    ensures AllFit(ForTrack(log, h))
  {
    if log != [] {
      LogFits(log[..|log| - 1], h);
    }
  }

  lemma LegibleReadsBack(r: Room)
    requires RoomInv(r)
    ensures Legible(r) ==> ReadsBack(r)
    ensures AcceptedFit(r) && ReadsBack(r) ==> Legible(r)
  {
    hide RoomInv, Readable, ForTrack, AllFit, ReadBack, Fits;
    forall h | 0 <= h < |r.heap| && Readable(r.store, r.heap[h])
      ensures ReadBack(Fetch(r.store, r.heap[h].segments)) == ForTrack(r.accepted, h) <==> AllFit(ForTrack(r.accepted, h))
    {
      ReadsBackIffFits(r, h);
    }
    if AcceptedFit(r) && ReadsBack(r) {
      forall h | 0 <= h < |r.heap| && r.heap[h].closed ensures Readable(r.store, r.heap[h]) {
        LogFits(r.accepted, h);
        LogOf(r, h);
        HeapOf(r);
        CountInRange(r, h);
        FittingIsReadable(r.store, r.heap[h], ForTrack(r.accepted, h));
      }
    }
  }

  lemma FittingIsReadable(store: map<string, Bytes>, t: Track, ps: seq<Packet>)
    requires t.Shaped() && Flatten(t.contents) == ps && AllFit(ps) && ReadBack(Fetch(store, t.segments)) == ps
    ensures Readable(store, t)
  {
    hide Flatten, AllFit, ReadBack;
    ReadBackIffFits(t);
  }

  /** The same guard in terms of the packets: while every packet accepted so far fits the length field,
      every closed track reads back as accepted in every continuation if and only if the ID is new. A track
      that holds an oversize packet never reads back as accepted, so it is promised nothing here. */
  lemma AddReadsBackIff(policy: Policy, segmentDuration: int, segmentMaxBytes: int, steps: seq<Step>, s: Step)
    requires FreshIDs(NewRoom(policy, segmentDuration, segmentMaxBytes), steps)
    requires Adds(ReachedRoom(policy, segmentDuration, segmentMaxBytes, steps), s)
    requires AcceptedFit(ReachedRoom(policy, segmentDuration, segmentMaxBytes, steps))
    ensures var r := ReachedRoom(policy, segmentDuration, segmentMaxBytes, steps);
            StaysReadingBack(Do(r, s)) <==> FreshID(r, s)
  {
    hide RoomInv, RunRoom, FreshIDs, Legible, ReadsBack, Intact, IDsDistinct, StoreInv, FreshID, Do, Breaks, AcceptedFit;
    var r := ReachedRoom(policy, segmentDuration, segmentMaxBytes, steps);
    ReachedStore(policy, segmentDuration, segmentMaxBytes, steps);
    hide ReachedRoom;
    if FreshID(r, s) {
      StepInv(r, s);
      StepKeepsStore(r, s);
      StaysFromInv(Do(r, s));
      forall more | FreshIDs(Do(r, s), more) ensures ReadsBack(RunRoom(Do(r, s), more)) {
        RunRoomInv(Do(r, s), more);
        LegibleReadsBack(RunRoom(Do(r, s), more));
      }
    } else {
      var more := ReuseBreaks(r, s);
      BreaksReadingBack(r, s, more);
    }
  }

  lemma BreaksReadingBack(r: Room, s: Step, steps: seq<Step>)
    requires s.AddTrack? && Breaks(r, s, steps) && AcceptedFit(r)
    ensures !StaysReadingBack(Do(r, s))
  {
    hide FreshIDs, Legible, RunRoom, Do, RoomInv, ReadsBack;
    var r' := RunRoom(Do(r, s), steps);
    var p: Packet :| |p.data| == 0 && r'.accepted == r.accepted + [(|r.heap|, p)];
    assert AcceptedFit(r');
    LegibleReadsBack(r');
  }

  /** The same for whole runs: at every point of a run closed tracks are legible from then on, if and only
      if no track ID of the run is used twice. */
  lemma StoreSafeIff(policy: Policy, segmentDuration: int, segmentMaxBytes: int, steps: seq<Step>)
    ensures (forall k :: 0 <= k <= |steps| ==> StaysLegible(ReachedRoom(policy, segmentDuration, segmentMaxBytes, steps[..k])))
       <==> FreshIDs(NewRoom(policy, segmentDuration, segmentMaxBytes), steps)
  {
    hide RoomInv, RunRoom, FreshIDs, Intact, Legible, IDsDistinct, StoreInv, FreshID, Do, Adds, StaysLegible, ReachedRoom;
    var r0 := NewRoom(policy, segmentDuration, segmentMaxBytes);
    assert steps[..|steps|] == steps;
    if FreshIDs(r0, steps) {
      forall k | 0 <= k <= |steps| ensures StaysLegible(ReachedRoom(policy, segmentDuration, segmentMaxBytes, steps[..k])) {
        assert steps == steps[..k] + steps[k..];
        FreshIDsPrefix(r0, steps[..k], steps[k..]);
        ReachedStore(policy, segmentDuration, segmentMaxBytes, steps[..k]);
        StaysFromInv(ReachedRoom(policy, segmentDuration, segmentMaxBytes, steps[..k]));
      }
    } else {
      var k := FirstReuse(policy, segmentDuration, segmentMaxBytes, steps);
      assert !StaysLegible(ReachedRoom(policy, segmentDuration, segmentMaxBytes, steps[..k]));
    }
  }

  lemma {:induction false} FreshIDsPrefix(r: Room, first: seq<Step>, second: seq<Step>)
    requires FreshIDs(r, first + second)
    ensures FreshIDs(r, first)
    decreases |first|
  {
    hide Do, Adds, FreshID;
    if first != [] {
      assert (first + second)[1..] == first[1..] + second;
      FreshIDsPrefix(Do(r, first[0]), first[1..], second);
    }
  }

  /** The first step that reuses an ID is followed by a state that is not safe. */
  lemma {:induction false} FirstReuse(policy: Policy, segmentDuration: int, segmentMaxBytes: int, steps: seq<Step>) returns (k: nat)
    requires !FreshIDs(NewRoom(policy, segmentDuration, segmentMaxBytes), steps)
    ensures k <= |steps| && !StaysLegible(ReachedRoom(policy, segmentDuration, segmentMaxBytes, steps[..k]))
    decreases |steps|
  {
    hide RoomInv, RunRoom, Intact, Legible, IDsDistinct, StoreInv, FreshID, Do, Adds, StaysLegible;
    var r0 := NewRoom(policy, segmentDuration, segmentMaxBytes);
    if steps != [] {
      var front, last := steps[..|steps| - 1], steps[|steps| - 1];
      assert steps == front + [last] == steps[..|steps|];
      FreshIDsAppend(r0, front, last);
      if FreshIDs(r0, front) {
        AddSafeIff(policy, segmentDuration, segmentMaxBytes, front, last);
        RunAppend(r0, front, last);
        k := |steps|;
      } else {
        k := FirstReuse(policy, segmentDuration, segmentMaxBytes, front);
        assert front[..k] == steps[..k];
      }
    }
  }

  lemma {:induction false} RunExtends(r: Room, steps: seq<Step>)
    requires RoomInv(r)
    ensures Extends(r, RunRoom(r, steps))
    decreases |steps|
  {
    hide RoomInv, Do;
    if steps != [] {
      StepInv(r, steps[0]);
      StepExtends(r, steps[0]);
      RunExtends(Do(r, steps[0]), steps[1..]);
    }
  }

  /** What the guard means for the state: no two tracks of the recording share an ID. */
  lemma {:induction false} FreshIDsMeanDistinct(r: Room, steps: seq<Step>)
    requires RoomInv(r) && IDsDistinct(r)
    ensures FreshIDs(r, steps) <==> IDsDistinct(RunRoom(r, steps))
    decreases |steps|
  {
    hide RoomInv, Do, Adds, FreshID, IDsDistinct;
    if steps != [] {
      var r' := Do(r, steps[0]);
      StepInv(r, steps[0]);
      AddDistinct(r, steps[0]);
      if IDsDistinct(r') {
        FreshIDsMeanDistinct(r', steps[1..]);
      } else {
        RunExtends(r', steps[1..]);
        SharedIDStays(r', RunRoom(r', steps[1..]));
      }
    }
  }

  lemma SharedIDStays(r: Room, r': Room)
    requires Extends(r, r') && !IDsDistinct(r)
    ensures !IDsDistinct(r')
  {
    var h, k :| 0 <= h < k < |r.heap| && r.heap[h].cfg.trackID == r.heap[k].cfg.trackID;
    assert r'.heap[h].cfg.trackID == r'.heap[k].cfg.trackID;
  }

  lemma AddDistinct(r: Room, s: Step)
    requires RoomInv(r) && IDsDistinct(r)
    ensures IDsDistinct(Do(r, s)) <==> (Adds(r, s) ==> FreshID(r, s))
  {
    hide RoomInv, Do, NewTrack, ConfigOf;
    if Adds(r, s) {
      AddedRoom(r, s);
      var r' := Do(r, s);
      assert forall h :: 0 <= h < |r.heap| ==> r'.heap[h] == r.heap[h];
      assert r'.heap[|r.heap|].cfg == ConfigOf(r, s);
    } else {
      StepExtends(r, s);
      SameCount(r, s);
    }
  }

  lemma SameCount(r: Room, s: Step)
    requires RoomInv(r) && !Adds(r, s)
    ensures |Do(r, s).heap| == |r.heap|
  {
    hide RoomInv, Do, Adds, Moves, Touched;
    StepMoves(r, s);
  }

  /** The failing run: a producer is added, records one packet, is removed, and all that once more. Both
      tracks are closed and every packet fits, and the first track reads back as the second one's packet. */
  function LosingRun(now: Time): seq<Step> {
    var add, at := AddTrack("p", "alice", [], 0, 0, Audio, now), Reads(now, now, now, now);
    [add, LookUp("p", Packet([1], 7)), Step.Write(0, at), RemoveTrack("p", None, now, now)]
    + [add, LookUp("p", Packet([2, 2], 8)), Step.Write(0, at), RemoveTrack("p", None, now, now)]
  }

  lemma ReAddedProducerLosesPackets(policy: Policy, now: Time)
    requires policy.recordAudio
    ensures var r := ReachedRoom(policy, 0, 0, LosingRun(now));
            && |r.heap| == 2 && r.heap[0].closed && r.heap[1].closed
            && r.accepted == [(0, Packet([1], 7)), (1, Packet([2, 2], 8))]
            && ReadBack(Fetch(r.store, r.heap[0].segments)) == [Packet([2, 2], 8)]
            && ForTrack(r.accepted, 0) == [Packet([1], 7)]
  {
    hide RoomInv, Do, RunRoom, NewTrack, FileOf, HeaderAt, NameOf, StoredObject, TrackInv, Lookup, ReadBack, DecodeFile;
    var add := AddTrack("p", "alice", [], 0, 0, Audio, now);
    var r0 := NewRoomAt(policy);
    var cfg := ConfigOf(r0, add);
    AddedRoom(r0, add);
    var r1 := Do(r0, add);
    var first := RecordSteps(r1, "p", Packet([1], 7), now);
    RecordOne(r1, "p", 0, Packet([1], 7), now);
    var r2 := RunRoom(r1, first);
    AddedRoom(r2, add);
    var r3 := Do(r2, add);
    assert ConfigOf(r2, add) == cfg;
    var second := RecordSteps(r3, "p", Packet([2, 2], 8), now);
    RecordOne(r3, "p", 1, Packet([2, 2], 8), now);
    var r4 := RunRoom(r3, second);
    RunAdded(r0, add, first);
    RunAdded(r2, add, second);
    RunConcat(r0, [add] + first, [add] + second);
    assert LosingRun(now) == ([add] + first) + ([add] + second);
    assert r4 == ReachedRoom(policy, 0, 0, LosingRun(now));
    var t, file := r4.heap[0], FileOf(HeaderAt(cfg, now), [Packet([2, 2], 8)]);
    assert t == r2.heap[0] && t.cfg == cfg;
    NamesAgree(t, r4.heap[1]);
    HeapOf(r4);
    HeapHas(r4, 0);
    ListedName(t, 0);
    assert Lookup(r4.store, t.segments[0].fileName) == Some(file) by { LookupStored(r3.store, NameOf(t, 0), file); }
    OneObject(Fetch(r4.store, t.segments), file);
    FileRoundTrip(HeaderAt(cfg, now), [Packet([2, 2], 8)]);
    assert r4.accepted == [(0, Packet([1], 7)), (1, Packet([2, 2], 8))];
    FirstOfTwo(Packet([1], 7), Packet([2, 2], 8));
  }

  lemma RunAdded(r: Room, s: Step, steps: seq<Step>)
    ensures RunRoom(r, [s] + steps) == RunRoom(Do(r, s), steps)
  {
    hide Do;
    assert ([s] + steps)[1..] == steps;
  }

  lemma LookupStored(store: map<string, Bytes>, f: string, file: Bytes)
    ensures Lookup(store[f := file], f) == Some(file)
  {
  }

  lemma OneObject(objects: seq<Option<Bytes>>, file: Bytes)
    requires objects == [Some(file)]
    ensures ReadBack(objects) == DecodeFile(file).packets
  {
    hide DecodeFile;
    assert objects[..0] == [];
    assert [] + DecodeFile(file).packets == DecodeFile(file).packets;
  }

  lemma FirstOfTwo(p: Packet, q: Packet)
    ensures ForTrack([(0, p), (1, q)], 0) == [p]
  {
    var log := [(0, p), (1, q)];
    assert log[..1] == [(0, p)] && [(0, p)][..0] == [];
    assert ForTrack(log[..1], 0) == [p];
  }

  /** The same guard seen from the end of a run. */
  lemma DistinctReadsBack(policy: Policy, segmentDuration: int, segmentMaxBytes: int, steps: seq<Step>, h: nat)
    requires var r := ReachedRoom(policy, segmentDuration, segmentMaxBytes, steps);
             IDsDistinct(r) && h < |r.heap| && r.heap[h].closed
    ensures var r := ReachedRoom(policy, segmentDuration, segmentMaxBytes, steps);
            ReadBack(Fetch(r.store, r.heap[h].segments)) == ForTrack(r.accepted, h) <==> AllFit(ForTrack(r.accepted, h))
  {
    hide RoomInv, IDsDistinct, StoreInv, FreshIDs, ForTrack, ReadBack, AllFit, RunRoom;
    NewRoomInv(policy, segmentDuration, segmentMaxBytes);
    NewStore(policy, segmentDuration, segmentMaxBytes);
    FreshIDsMeanDistinct(NewRoom(policy, segmentDuration, segmentMaxBytes), steps);
    RoomEndToEnd(policy, segmentDuration, segmentMaxBytes, steps, h);
  }
}
