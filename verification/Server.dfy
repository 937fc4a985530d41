/** Server as the code has it, between two messages: the manager, the live sessions and the connection.
    What may happen in the middle of a message is in Dispatch and ServerModel. */
module Servers {
  import opened GoTypes
  import opened TrackModel
  import opened TrackWriters
  import opened RoomModel
  import opened RoomProofs
  import opened Rooms
  import opened Managers
  import opened Parts
  import opened LiveRecorder
  import Keys

  /** The part of the policy that concerns exports of one kind. */
  datatype Export = Export(enabled: bool, partDurationSec: Int32)

  /** The parts of the policy that say who may start a recording; any other number is `Unknown`. */
  datatype WhoCanRecord = HostOnly | CoHostAndHost | Anyone | Unknown
  datatype Role = Participant | CoHost | Host
  datatype Permission = Permission(enabled: bool, who: WhoCanRecord)

  predicate CanRecord(p: Permission, role: Role) {
    p.enabled
    && match p.who
       case HostOnly => role.Host?
       case CoHostAndHost => role.Host? || role.CoHost?
       case Anyone => true
       case Unknown => false
  }

  /** The two part lists of buildRecordingPartsForPolicy. */
  function QuickPartsFor(place: Place, duration: Int64, quick: Export): seq<RecordingPart> {
    if quick.enabled then QuickPartsOf(place.roomID, place.recordingID, duration, quick.partDurationSec) else []
  }

  function LatePartsFor(place: Place, duration: Int64, late: Export): seq<RecordingPart> {
    if late.enabled then LatePartsOf(place.roomID, place.recordingID, duration, late.partDurationSec) else []
  }

  /** The parts that a policy asks for: none when it does not or the recording has no length; else they are
      named after their positions and tile the recording, as long as no integer overflows. */
  ghost predicate Asked(parts: seq<RecordingPart>, duration: Int64, e: Export, keyPrefix: string, labelPrefix: string) {
    && (parts == [] <==> duration <= 0 || !e.enabled || e.partDurationSec <= 0)
    && (|parts| <= MAX_INT32 ==> Named(parts, keyPrefix, labelPrefix))
    && (parts != [] && duration < Horizon(e.partDurationSec) ==> |parts| <= MAX_INT32 && Tiles(parts, duration, e.partDurationSec))
  }

  lemma PartsAsked(duration: Int64, e: Export, keyPrefix: string, labelPrefix: string)
    ensures Asked(if duration <= 0 || !e.enabled then [] else PartsOf(duration, e.partDurationSec, keyPrefix, labelPrefix),
                  duration, e, keyPrefix, labelPrefix)
  {
    hide Tiles, PartsOf, Horizon, NumberedKey, NumberedLabel;
    if duration > 0 && e.enabled {
      PartsLaw(duration, e.partDurationSec, keyPrefix, labelPrefix);
      if e.partDurationSec > 0 && duration < Horizon(e.partDurationSec) {
        HorizonTiles(duration, e.partDurationSec, keyPrefix, labelPrefix);
        TilesFew(PartsOf(duration, e.partDurationSec, keyPrefix, labelPrefix), duration, e.partDurationSec);
      }
    }
  }

  lemma TilesFew(parts: seq<RecordingPart>, duration: int, partDurationSec: int)
    requires Tiles(parts, duration, partDurationSec)
    ensures |parts| <= MAX_INT32
  {
    IndexFits(parts, |parts| - 1);
  }

  lemma IndexFits(parts: seq<RecordingPart>, i: nat)
    requires i < |parts|
    ensures parts[i].index <= MAX_INT32
  {
  }

  method BuildRecordingParts(place: Place, duration: Int64, quick: Export, late: Export)
    returns (quickParts: seq<RecordingPart>, lateParts: seq<RecordingPart>)
    ensures quickParts == QuickPartsFor(place, duration, quick) && lateParts == LatePartsFor(place, duration, late)
    ensures Asked(quickParts, duration, quick,
                  Keys.RecordingPrefix(place.roomID, place.recordingID) + "quick_access/part-", "Quick Access")
    ensures Asked(lateParts, duration, late,
                  Keys.RecordingPrefix(place.roomID, place.recordingID) + "processed/exports/part-", "Final Export")
  {
    hide PartsOf, Asked;
    PartsAsked(duration, quick, QuickPrefix(place.roomID, place.recordingID), QUICK_LABEL);
    PartsAsked(duration, late, LatePrefix(place.roomID, place.recordingID), LATE_LABEL);
    quickParts, lateParts := [], [];
    if duration <= 0 {
      return;
    }
    if quick.enabled {
      quickParts := BuildParts(duration, quick.partDurationSec, QuickPrefix(place.roomID, place.recordingID), QUICK_LABEL);
    }
    if late.enabled {
      lateParts := BuildParts(duration, late.partDurationSec, LatePrefix(place.roomID, place.recordingID), LATE_LABEL);
    }
  }

  /** The stop handler has measured the length and taken the session out, and `l` is the live recorder then. */
  ghost predicate AtFinalPass(l: Live, place: Place, sec: Int32, duration: Int64) {
    && Reached(l) && l.stop == Cancelled(duration) && l.partDurationSec == sec > 0
    && l.roomID == place.roomID && l.recordingID == place.recordingID
  }

  /** With a live recorder in state `l`: what is queued is what the final pass of the model queues, and every
      millisecond of the recording lies in a part claimed live or in one queued now. */
  ghost predicate QueuedBehind(l: Live, claimed: seq<RecordingPart>, queued: seq<RecordingPart>, duration: Int64) {
    && Next(l, Final).stop.Done? && queued == Next(l, Final).stop.queued
    && forall ms :: 0 <= ms < duration / MILLISECOND ==> Covered(claimed + queued, ms)
  }

  lemma QueuedAsModelled(l: Live, place: Place, quick: Export, duration: Int64)
    requires AtFinalPass(l, place, quick.partDurationSec, duration) && quick.enabled
    ensures QueuedBehind(l, l.quickParts, Unclaimed(QuickPartsFor(place, duration, quick), Indices(l.quickParts)), duration)
  {
    FinalPassCovers(l);
    hide Reached, Unclaimed, Indices, QuickPartsOf, Covered, Next;
  }

  /** What a stop leaves to be exported, with a live session (of which `live` says whether it shows `l`) or
      without: all parts the policy asks for, and with a session those behind the claimed ones. */
  ghost predicate AllExported(place: Place, duration: Int64, quick: Export, late: Export, claimed: Option<seq<RecordingPart>>,
                              l: Live, live: bool, queued: seq<RecordingPart>, queuedLate: seq<RecordingPart>) {
    && Asked(queuedLate, duration, late,
             Keys.RecordingPrefix(place.roomID, place.recordingID) + "processed/exports/part-", "Final Export")
    && (claimed == None ==>
          Asked(queued, duration, quick,
                Keys.RecordingPrefix(place.roomID, place.recordingID) + "quick_access/part-", "Quick Access"))
    && (claimed.Some? && live && quick.enabled && duration > 0 && AtFinalPass(l, place, quick.partDurationSec, duration) ==>
          QueuedBehind(l, claimed.value, queued, duration))
  }

  lemma StopExports(place: Place, duration: Int64, quick: Export, late: Export, claimed: Option<seq<RecordingPart>>, l: Live, live: bool)
    requires live && claimed.Some? ==> l.quickParts == claimed.value
    ensures var queued := if duration <= 0 || !quick.enabled then []
                          else Unclaimed(QuickPartsFor(place, duration, quick), Indices(if claimed.Some? then claimed.value else []));
            AllExported(place, duration, quick, late, claimed, l, live, queued, LatePartsFor(place, duration, late))
  {
    PartsAsked(duration, quick, QuickPrefix(place.roomID, place.recordingID), QUICK_LABEL);
    PartsAsked(duration, late, LatePrefix(place.roomID, place.recordingID), LATE_LABEL);
    assert Indices([]) == {};
    NothingClaimed(QuickPartsFor(place, duration, quick));
    hide Asked, AtFinalPass, QueuedBehind, Unclaimed, Indices, PartsOf;
    if AtFinalPass(l, place, quick.partDurationSec, duration) && quick.enabled {
      QueuedAsModelled(l, place, quick, duration);
    }
  }

  lemma {:induction false} NothingClaimed(parts: seq<RecordingPart>)
    ensures Unclaimed(parts, {}) == parts
  {
    if parts != [] {
      NothingClaimed(parts[..|parts| - 1]);
    }
  }

  class Server {
    const manager: Manager
    const compositer: bool // there is a compositer to export parts to

    var liveSessions: map<string, LiveSession>
    var connected: bool

    ghost predicate Valid()
      reads this, manager, manager.Repr, manager.rooms.Values
    {
      && manager.Valid() && this !in manager.Repr
      && (forall x :: x in liveSessions ==> liveSessions[x] !in manager.Repr)
    }

    /** Every live session's room is in the manager's map. */
    ghost predicate Backed()
      reads this`liveSessions, manager`rooms
    {
      liveSessions.Keys <= manager.rooms.Keys
    }

    constructor (manager: Manager, compositer: bool)
      requires manager.Valid() && manager.rooms == map[]
      ensures this.manager == manager && this.compositer == compositer && Valid() && Backed() && !connected
    {
      this.manager, this.compositer := manager, compositer;
      liveSessions, connected := map[], false;
    }

    /** A session that has just started for the recording at `place`: it shows the live recorder's initial
        state for the policy's part length. */
    ghost predicate NewSession(place: Place, sec: Int32, session: LiveSession)
      reads session
    {
      session.Shows(LiveRecorder.Start(place.roomID, place.recordingID, sec)) && !session.cancelled
    }

    /** startLiveRecorder: a new session replaces and cancels an older one of the same room. */
    method StartLiveRecorder(place: Place, quick: Export)
      requires Valid() && place.roomID in manager.rooms
      modifies this`liveSessions, if place.roomID in liveSessions then {liveSessions[place.roomID]} else {}
      ensures if !compositer || !quick.enabled then liveSessions == old(liveSessions)
              else
                && place.roomID in liveSessions
                && liveSessions == old(liveSessions)[place.roomID := liveSessions[place.roomID]]
                && fresh(liveSessions[place.roomID]) && NewSession(place, quick.partDurationSec, liveSessions[place.roomID])
                && (place.roomID in old(liveSessions) ==> old(liveSessions)[place.roomID].cancelled)
      ensures Valid() && (old(Backed()) ==> Backed())
    {
      hide Manager.Valid;
      if !compositer || !quick.enabled {
        return;
      }
      var session := new LiveSession(place.roomID, place.recordingID, quick.partDurationSec);
      if place.roomID in liveSessions {
        liveSessions[place.roomID].Cancel();
      }
      liveSessions := liveSessions[place.roomID := session];
    }

    method StopLiveRecorder(room: string) returns (session: LiveSession?)
      requires Valid()
      modifies this`liveSessions, if room in liveSessions then {liveSessions[room]} else {}
      ensures liveSessions == old(liveSessions) - {room}
      ensures if room in old(liveSessions)
              then session == old(liveSessions)[room] && session.cancelled && session.quickParts == old(liveSessions[room].quickParts)
              else session == null
      ensures Valid() && (old(Backed()) ==> Backed())
    {
      hide Manager.Valid;
      if room !in liveSessions {
        assert liveSessions - {room} == liveSessions;
        return null;
      }
      session := liveSessions[room];
      liveSessions := liveSessions - {room};
      session.Cancel();
    }

    /** handleStartRecording; `sent` says whether the answer reached the SFU. A request by the system is
        refused only when recording is disabled; any other is checked as if a host had made it. */
    method HandleStart(room: string, id: string, permission: Permission, bySystem: bool, policy: Policy, quick: Export,
                       created: bool, sent: bool) returns (ok: bool)
      requires Valid() && Backed()
      modifies this`liveSessions, manager, if room in liveSessions then {liveSessions[room]} else {}
      ensures ok <==> permission.enabled && (bySystem || !permission.who.Unknown?) && room !in old(manager.rooms) && created
      ensures manager.rooms.Keys == old(manager.rooms).Keys + (if ok then {room} else {})
      ensures liveSessions.Keys == old(liveSessions).Keys + (if ok && sent && compositer && quick.enabled then {room} else {})
      ensures forall x :: x in old(manager.rooms) ==> manager.rooms[x] == old(manager.rooms)[x]
      ensures forall x :: x in old(liveSessions) ==> liveSessions[x] == old(liveSessions)[x]
      ensures ok ==> manager.rooms[room].place == Place(room, id)
                     && manager.rooms[room].model == NewRoom(policy, manager.segmentDuration, manager.segmentMaxBytes)
      ensures ok && sent && compositer && quick.enabled ==> NewSession(Place(room, id), quick.partDurationSec, liveSessions[room])
      ensures Valid() && Backed()
    {
      hide Manager.Valid;
      if !permission.enabled {
        return false;
      }
      if !bySystem && !CanRecord(permission, Host) {
        return false;
      }
      ok := manager.StartRecording(room, id, policy, created);
      if ok && sent {
        StartLiveRecorder(manager.rooms[room].place, quick);
      }
    }

    /** handleStopRecording: the session ends first, then the recording; then the parts of a recording of
        length `duration` are queued, save the quick-access ones that the timer has claimed. `stats` is what
        the recording reported before it was stopped. */
    method HandleStop(room: string, quick: Export, late: Export, duration: Int64, sent: bool,
                      closeNow: string -> Time, endNow: string -> Time, finalized: bool, ghost l: Live)
      returns (ok: bool, stats: Option<Stats>, queuedParts: seq<RecordingPart>, queuedLate: seq<RecordingPart>)
      requires Valid() && Backed()
      modifies this`liveSessions, manager`rooms
      modifies if room in liveSessions then {liveSessions[room]} else {}
      modifies if room in manager.rooms then manager.rooms[room].Repr else {}
      ensures ok <==> room in old(manager.rooms) && finalized
      ensures stats == if room in old(manager.rooms) then Some(StatsOf(old(manager.rooms[room].model))) else None
      ensures manager.rooms == old(manager.rooms) - {room} && liveSessions == old(liveSessions) - {room}
      ensures room in old(manager.rooms) ==> Stopped(old(manager.rooms)[room], old(manager.rooms[room].model), finalized)
      ensures queuedParts == if !ok || !sent || !compositer || duration <= 0 || !quick.enabled then []
                             else Unclaimed(QuickPartsFor(old(manager.rooms)[room].place, duration, quick),
                                            if room in old(liveSessions) then Indices(old(liveSessions[room].quickParts)) else {})
      ensures queuedLate == if !ok || !sent || !compositer then [] else LatePartsFor(old(manager.rooms)[room].place, duration, late)
      ensures ok && sent && compositer ==>
                AllExported(old(manager.rooms)[room].place, duration, quick, late,
                            if room in old(liveSessions) then Some(old(liveSessions[room].quickParts)) else None,
                            l, room in old(liveSessions) && old(liveSessions[room].Shows(l)), queuedParts, queuedLate)
      ensures Valid() && Backed()
    {
      hide Manager.Valid, Stopped, Apart, PartsOf, Unclaimed, Indices, StatsOf, Asked, AllExported;
      var place;
      place, stats := Report(room);
      manager.RoomsInside();
      var session := StopLiveRecorder(room);
      ok := manager.StopRecording(room, closeNow, endNow, finalized);
      if !ok || !sent {
        return ok, stats, [], [];
      }
      var quickParts, lateParts := BuildRecordingParts(place, duration, quick, late);
      StopExports(place, duration, quick, late, if session == null then None else Some(session.quickParts),
                  l, session != null && old(liveSessions[room].Shows(l)));
      assert Indices([]) == {} by { IndicesOfNone(); }
      queuedParts, queuedLate := QueueFinalExports(compositer, if session == null then [] else session.quickParts,
                                                   duration, quick.enabled, quickParts, late.enabled, lateParts);
    }

    /** What the stop handler reads of the recording before it stops it. */
    method Report(room: string) returns (place: Place, stats: Option<Stats>)
      requires Valid()
      ensures room in manager.rooms ==> place == manager.rooms[room].place
      ensures stats == if room in manager.rooms then Some(StatsOf(manager.rooms[room].model)) else None
    {
      hide StatsOf, RoomRecording.Valid;
      if room !in manager.rooms {
        return Place(room, ""), None;
      }
      place := manager.rooms[room].place;
      var report := manager.rooms[room].Stats();
      stats := Some(report);
    }

    /** One boundary of the timer goroutine: cut the room's segments at the end of the part, then claim the
        part. In the model these are the boundary's steps, the claim and the move to the next index. */
    method ProcessBoundary(rec: RoomRecording, session: LiveSession, startedAt: Time, clock: string -> Time, ghost l: Live)
      returns (ghost steps: seq<Step>)
      requires rec.Valid() && session !in rec.Repr
      requires session.Shows(l) && l.partDurationSec > 0 && l.timer.Waiting? && l.elapsed >= Wrap64(l.next * PartDuration(l))
      modifies rec.Repr, session`quickParts, session`nextQuickIndex
      ensures rec.model == RunRoom(old(rec.model), steps)
      ensures RoomInv(old(rec.model))
              && CutExcept(old(rec.model), rec.model, Some(startedAt + Wrap64(l.next * PartDuration(l))), clock, {})
      ensures session.Shows(Next(Next(l, Claim), Advance))
      ensures rec.Valid()
    {
      hide RoomRecording.Valid, RoomInv, CutExcept, RunRoom, Next, LivePart;
      steps := rec.RotateSegmentsAt(Some(startedAt + Wrap64(session.nextQuickIndex * session.quickPartDuration)), clock);
      session.ProcessQuickAccessBoundary(l);
    }

    lemma IndicesOfNone()
      ensures Indices([]) == {}
    {
    }

    /** Of the sessions that ran at the start, each is still live or cancelled. */
    ghost predicate Ending(sessions: map<string, LiveSession>)
      reads this`liveSessions, manager`Repr, sessions.Values
    {
      && liveSessions.Keys <= sessions.Keys
      && forall x :: x in sessions ==>
           sessions[x] !in manager.Repr && if x in liveSessions then liveSessions[x] == sessions[x] else sessions[x].cancelled
    }

    /** One room of a disconnect: end the session, then the recording, and report it if that worked. */
    method StopListed(room: string, closeNow: string -> Time, endNow: string -> Time, finalized: string -> bool,
                      ghost done: map<string, RoomRecording>, ghost before: map<string, Room>,
                      ghost sessions: map<string, LiveSession>)
      returns (notify: bool)
      requires Ending(sessions) && Valid() && Backed() && room in manager.rooms && Progress(done, manager.rooms, before, finalized)
      modifies this`liveSessions, manager`rooms, manager.rooms[room].Repr
      modifies if room in liveSessions then {liveSessions[room]} else {}
      ensures notify == finalized(room)
      ensures manager.rooms == old(manager.rooms) - {room} && Ending(sessions)
      ensures Progress(done[room := old(manager.rooms)[room]], manager.rooms, before, finalized)
      ensures Valid() && Backed() && manager.Repr == old(manager.Repr)
    {
      hide Manager.Valid, Stopped, Apart, Progress;
      manager.RoomsInside();
      var session := StopLiveRecorder(room);
      notify := manager.StopOneOf(room, closeNow, endNow, finalized, done, before);
    }

    /** handleDisconnect: only a registered SFU's recordings are stopped; then every session is cancelled
        and every recording stopped, whether or not finalising worked. `notified` names the rooms whose
        failure is reported. */
    method HandleDisconnect(closeNow: string -> Time, endNow: string -> Time, finalized: string -> bool)
      returns (notified: seq<string>)
      requires Valid() && Backed()
      modifies this, manager, manager.Repr, liveSessions.Values
      ensures !connected
      ensures !old(connected) ==> notified == [] && manager.rooms == old(manager.rooms) && liveSessions == old(liveSessions)
      ensures old(connected) ==>
                && manager.rooms == map[] && liveSessions == map[]
                && (forall x :: x in old(manager.rooms) ==> Stopped(old(manager.rooms)[x], old(manager.rooms[x].model), finalized(x)))
                && (forall x :: x in old(liveSessions) ==> old(liveSessions)[x].cancelled)
                && (forall x :: x in notified <==> x in old(manager.rooms) && finalized(x))
      ensures Valid() && Backed()
    {
      hide Manager.Valid, Stopped, Apart, Progress;
      var registered := connected;
      connected := false;
      notified := [];
      if !registered {
        return;
      }
      notified := StopAll(closeNow, endNow, finalized);
    }

    /** The loop of a disconnect. */
    method StopAll(closeNow: string -> Time, endNow: string -> Time, finalized: string -> bool)
      returns (notified: seq<string>)
      requires Valid() && Backed()
      modifies this`liveSessions, manager`rooms, manager.Repr, liveSessions.Values
      ensures manager.rooms == map[] && liveSessions == map[]
      ensures forall x :: x in old(manager.rooms) ==> Stopped(old(manager.rooms)[x], old(manager.rooms[x].model), finalized(x))
      ensures forall x :: x in old(liveSessions) ==> old(liveSessions)[x].cancelled
      ensures forall x :: x in notified <==> x in old(manager.rooms) && finalized(x)
      ensures Valid() && Backed()
    {
      hide Manager.Valid, Stopped, Apart, Progress, Divided;
      assert Ending(liveSessions);
      notified := [];
      ghost var start, sessions, before := manager.rooms, liveSessions, manager.Models();
      ghost var done: map<string, RoomRecording> := map[];
      NothingDone(manager.rooms, done, before, finalized);
      var left := manager.rooms.Keys;
      hide Ending;
      while left != {}
        invariant Valid() && Backed() && left == manager.rooms.Keys && manager.Repr == old(manager.Repr)
        invariant Progress(done, manager.rooms, before, finalized) && Divided(start, done, manager.rooms)
        invariant Ending(sessions)
        invariant forall x :: x in notified <==> x in done && finalized(x)
        decreases left
      {
        var room :| room in left;
        manager.RoomsInside();
        OneMoreDone(start, done, manager.rooms, room);
        ghost var rec := manager.rooms[room];
        var notify := StopListed(room, closeNow, endNow, finalized, done, before, sessions);
        done := done[room := rec];
        left := left - {room};
        if notify {
          notified := notified + [room];
        }
      }
      AllEnded(sessions);
      assert manager.rooms == map[];
      AllDone(start, done, manager.rooms, before, finalized);
    }
  
    lemma AllEnded(sessions: map<string, LiveSession>)
      requires Ending(sessions) && Backed() && manager.rooms.Keys == {}
      ensures liveSessions == map[] && forall x :: x in sessions ==> sessions[x].cancelled
    {
      assert liveSessions.Keys == {};
    }
  }
}
