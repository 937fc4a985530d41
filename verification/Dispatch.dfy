/** The bookkeeping of the server and its manager, as a system of atomic steps: one dispatcher that
    handles the messages of the connected SFU one after the other, and a shutdown that may start at any
    moment. What happens inside a recording is left to ServerModel. */
module Dispatch {

  /** What the dispatcher goes on with after stopping a room: the next message, or the rooms that a
      disconnect listed and has not stopped yet. */
  datatype Back = ToIdle | ToLoop(left: set<string>)

  datatype Dispatcher =
    | Idle
    | Starting(room: string, rec: nat) // the recording is in the map, the live session is not
    | Disconnecting(left: set<string>)
    | Taking(room: string, back: Back) // the live session is gone, the recording still in the map
    | Calling(rec: nat, back: Back) // out of the map, Stop not called yet
    | Waiting(rec: nat, back: Back) // in Stop

  /** A handle is the number of a recording in order of creation. */
  datatype Book = Book(
    roomOf: seq<string>,
    stopCalls: seq<nat>, // how often the Stop of each recording was called
    rooms: map<string, nat>, // the manager's map
    live: map<string, nat>, // the recording behind each live session
    connected: bool,
    at: Dispatcher,
    closing: set<nat>, // taken by Shutdown, Stop not called yet
    shut: set<nat>) // everything Shutdown ever took

  function NewBook(): Book {
    Book([], [], map[], map[], false, Idle, {}, {})
  }

  datatype Event =
    | Register
    | StartRequest(room: string)
    | FinishStart(session: bool) // whether the answer was sent and the policy asks for a live session
    | StopRequest(room: string)
    | Take
    | Call
    | Return
    | Disconnect
    | NextRoom(room: string)
    | EndDisconnect
    | Shutdown
    | ShutdownCall(rec: nat)

  function Resume(back: Back): Dispatcher {
    match back
    case ToIdle => Idle
    case ToLoop(left) => Disconnecting(left)
  }

  function CountCall(b: Book, h: nat): Book {
    if h < |b.stopCalls| then b.(stopCalls := b.stopCalls[h := b.stopCalls[h] + 1]) else b
  }

  /** stopLiveRecorder comes first, for a stop request and in the loop of a disconnect. */
  function Leave(b: Book, room: string, back: Back): Book {
    b.(live := b.live - {room}, at := Taking(room, back))
  }

  function DoStart(b: Book, room: string): Book {
    if !b.at.Idle? || room in b.rooms then b
    else
      var h := |b.roomOf|;
      b.(roomOf := b.roomOf + [room], stopCalls := b.stopCalls + [0], rooms := b.rooms[room := h], at := Starting(room, h))
  }

  function DoFinishStart(b: Book, session: bool): Book {
    if !b.at.Starting? then b
    else b.(live := if session then b.live[b.at.room := b.at.rec] else b.live, at := Idle)
  }

  function DoTake(b: Book): Book {
    if !b.at.Taking? then b
    else if b.at.room in b.rooms
    then b.(rooms := b.rooms - {b.at.room}, at := Calling(b.rooms[b.at.room], b.at.back))
    else b.(at := Resume(b.at.back))
  }

  function DoShutdown(b: Book): Book {
    b.(closing := b.closing + b.rooms.Values, shut := b.shut + b.rooms.Values, rooms := map[])
  }

  /** An event that is not possible in a state changes nothing. */
  function React(b: Book, e: Event): Book {
    match e
    case Register => if b.at.Idle? then b.(connected := true) else b
    case StartRequest(room) => DoStart(b, room)
    case FinishStart(session) => DoFinishStart(b, session)
    case StopRequest(room) => if b.at.Idle? then Leave(b, room, ToIdle) else b
    case Take => DoTake(b)
    case Call => if b.at.Calling? then CountCall(b, b.at.rec).(at := Waiting(b.at.rec, b.at.back)) else b
    case Return => if b.at.Waiting? then b.(at := Resume(b.at.back)) else b
    case Disconnect =>
      if b.at.Idle? && b.connected then b.(connected := false, at := Disconnecting(b.rooms.Keys)) else b
    case NextRoom(room) =>
      if b.at.Disconnecting? && room in b.at.left then Leave(b, room, ToLoop(b.at.left - {room})) else b
    case EndDisconnect => if b.at == Disconnecting({}) then b.(at := Idle) else b
    case Shutdown => DoShutdown(b)
    case ShutdownCall(rec) => if rec in b.closing then CountCall(b, rec).(closing := b.closing - {rec}) else b
  }

  // ---------------------------------------------------------------- invariant

  /** The recording with this handle is the one the manager knows for its room. */
  predicate InMap(b: Book, h: nat)
    requires h < |b.roomOf|
  {
    b.roomOf[h] in b.rooms && b.rooms[b.roomOf[h]] == h
  }

  /** Someone has taken the recording out of the map in order to stop it, and has not called Stop yet. */
  predicate InHands(b: Book, h: nat) {
    h in b.closing || (b.at.Calling? && b.at.rec == h)
  }

  predicate Shaped(b: Book) {
    |b.stopCalls| == |b.roomOf| && forall h :: h in b.closing ==> h < |b.roomOf|
  }

  /** The map names recordings by their own rooms, and what is in someone's hands is not in the map. */
  ghost predicate MapInv(b: Book) {
    && (forall x :: x in b.rooms ==> b.rooms[x] < |b.roomOf| && b.roomOf[b.rooms[x]] == x)
    && (forall h: nat :: InHands(b, h) ==> h < |b.roomOf| && !InMap(b, h))
    && (b.at.Calling? ==>
          b.at.rec < |b.roomOf| && b.roomOf[b.at.rec] !in b.rooms && b.at.rec !in b.closing && b.at.rec !in b.shut)
  }

  /** Stop is called at most once, and has not been called exactly as long as the recording is in the
      map or in the hands of someone about to call it. */
  ghost predicate CallInv(b: Book)
    requires Shaped(b)
  {
    forall h :: 0 <= h < |b.roomOf| ==>
      b.stopCalls[h] <= 1 && (b.stopCalls[h] == 0 <==> InMap(b, h) || InHands(b, h))
  }

  /** A live session belongs to the recording in the map, unless Shutdown took that recording. */
  ghost predicate SessionInv(b: Book) {
    && (forall x :: x in b.live ==>
          b.live[x] < |b.roomOf| && b.roomOf[b.live[x]] == x && (InMap(b, b.live[x]) <==> b.live[x] !in b.shut))
    && (b.at.Starting? ==>
          b.at.rec < |b.roomOf| && b.roomOf[b.at.rec] == b.at.room && (InMap(b, b.at.rec) <==> b.at.rec !in b.shut))
    && (b.at.Taking? ==> b.at.room !in b.live)
    && b.closing <= b.shut
    && (forall h :: h in b.shut ==> h < |b.roomOf| && !InMap(b, h))
  }

  /** Nothing is in the map that the loop of a disconnect will not stop. */
  ghost predicate LoopInv(b: Book) {
    match b.at
    case Disconnecting(left) => b.rooms.Keys <= left
    case Taking(room, ToLoop(left)) => b.rooms.Keys <= left + {room}
    case Calling(_, ToLoop(left)) => b.rooms.Keys <= left
    case Waiting(_, ToLoop(left)) => b.rooms.Keys <= left
    case _ => true
  }

  ghost predicate BookInv(b: Book): (inv: bool)
    ensures inv ==> Shaped(b)
  {
    Shaped(b) && MapInv(b) && CallInv(b) && SessionInv(b) && LoopInv(b)
  }

  lemma StartKeeps(b: Book, room: string)
    requires BookInv(b)
    ensures BookInv(DoStart(b, room))
  {
    if b.at.Idle? && room !in b.rooms {
      var b' := DoStart(b, room);
      assert forall h :: 0 <= h < |b.roomOf| ==> b'.roomOf[h] == b.roomOf[h] && (InMap(b', h) <==> InMap(b, h));
    }
  }

  lemma TakeKeeps(b: Book)
    requires BookInv(b)
    ensures BookInv(DoTake(b))
  {
    if b.at.Taking? {
      var b' := DoTake(b);
      assert forall h :: 0 <= h < |b.roomOf| ==> (InMap(b', h) <==> InMap(b, h) && b.roomOf[h] != b.at.room);
    }
  }

  lemma ShutdownKeeps(b: Book)
    requires BookInv(b)
    ensures BookInv(DoShutdown(b))
  {
    var b' := DoShutdown(b);
    assert forall h :: 0 <= h < |b.roomOf| ==> (InMap(b, h) <==> h in b.rooms.Values) && !InMap(b', h);
  }

  /** Counting a call that someone was about to make. */
  lemma CallKeeps(b: Book, h: nat, b': Book)
    requires BookInv(b) && InHands(b, h)
    requires b' == CountCall(b, h).(at := b'.at, closing := b'.closing)
    requires (b.at.Calling? && b.at.rec == h && b'.at == Waiting(h, b.at.back) && b'.closing == b.closing)
          || (b'.at == b.at && h in b.closing && b'.closing == b.closing - {h})
    ensures BookInv(b')
  {
    assert forall k :: 0 <= k < |b.roomOf| ==> (InMap(b', k) <==> InMap(b, k));
    assert forall k: nat :: InHands(b', k) <==> InHands(b, k) && k != h;
    hide InMap, InHands;
  }

  /** Events that leave the recordings and the map alone. */
  lemma DispatchKeeps(b: Book, b': Book)
    requires BookInv(b) && b' == b.(live := b'.live, connected := b'.connected, at := b'.at)
    requires b' != b ==> !b.at.Calling? && !b'.at.Calling? && !b'.at.Starting?
    requires forall x :: x in b'.live ==>
               (x in b.live && b'.live[x] == b.live[x]) || (b.at.Starting? && x == b.at.room && b'.live[x] == b.at.rec)
    requires b'.at.Taking? ==> b'.at.room !in b'.live
    requires LoopInv(b')
    ensures BookInv(b')
  {
    hide LoopInv;
    if b' != b {
      assert forall h :: 0 <= h < |b.roomOf| ==> (InMap(b', h) <==> InMap(b, h));
      assert forall h: nat :: InHands(b', h) <==> InHands(b, h);
      hide InMap, InHands;
    }
  }

  lemma ReactKeeps(b: Book, e: Event)
    requires BookInv(b)
    ensures BookInv(React(b, e))
  {
    hide MapInv, CallInv, DoStart, DoTake, DoShutdown;
    match e
    case StartRequest(room) => StartKeeps(b, room);
    case Take => TakeKeeps(b);
    case Shutdown => ShutdownKeeps(b);
    case Call => if b.at.Calling? { CallKeeps(b, b.at.rec, React(b, e)); }
    case ShutdownCall(rec) => if rec in b.closing { CallKeeps(b, rec, React(b, e)); }
    case _ => DispatchKeeps(b, React(b, e));
  }

  lemma NewBookInv()
    ensures BookInv(NewBook())
  {
  }

  function RunBook(b: Book, events: seq<Event>): Book
    decreases |events|
  {
    if events == [] then b else RunBook(React(b, events[0]), events[1..])
  }

  lemma {:induction false} RunKeeps(b: Book, events: seq<Event>)
    requires BookInv(b)
    ensures BookInv(RunBook(b, events))
    decreases |events|
  {
    hide BookInv, React;
    if events != [] {
      ReactKeeps(b, events[0]);
      RunKeeps(React(b, events[0]), events[1..]);
    }
  }

  /** The bookkeeping of a fresh server after `events`. */
  function ReachedBook(events: seq<Event>): Book {
    RunBook(NewBook(), events)
  }

  lemma ReachedKeeps(events: seq<Event>)
    ensures BookInv(ReachedBook(events))
  {
    hide RunBook;
    NewBookInv();
    RunKeeps(NewBook(), events);
  }

  lemma {:induction false} RunBookConcat(b: Book, first: seq<Event>, second: seq<Event>)
    ensures RunBook(b, first + second) == RunBook(RunBook(b, first), second)
    decreases |first|
  {
    hide React;
    if first == [] {
      assert first + second == second;
    } else {
      assert (first + second)[1..] == first[1..] + second;
      RunBookConcat(React(b, first[0]), first[1..], second);
    }
  }

  // ---------------------------------------------------------------- results for every run

  /** Over any interleaving of starts, stops, disconnects and shutdowns: each recording's Stop is called
      at most once; it is uncalled exactly while the recording is in the map or on its way to be stopped,
      and never both, so no recording is forgotten. */
  lemma StopCalledOnce(events: seq<Event>, h: nat)
    requires h < |ReachedBook(events).roomOf|
    ensures var b := ReachedBook(events);
            && h < |b.stopCalls| && b.stopCalls[h] <= 1
            && (b.stopCalls[h] == 0 <==> InMap(b, h) || InHands(b, h))
            && !(InMap(b, h) && InHands(b, h))
            && !(h in b.closing && b.at.Calling? && b.at.rec == h)
  {
    hide SessionInv, LoopInv;
    ReachedKeeps(events);
    hide ReachedBook;
    assert InHands(ReachedBook(events), h) ==> !InMap(ReachedBook(events), h);
  }

  /** A live session runs for the recording the manager knows for its room, exactly unless Shutdown took
      that recording from under it. */
  lemma SessionBackedIff(events: seq<Event>, room: string)
    requires room in ReachedBook(events).live
    ensures var b := ReachedBook(events);
            room in b.rooms && b.rooms[room] == b.live[room] <==> b.live[room] !in b.shut
  {
    hide MapInv, CallInv, LoopInv;
    ReachedKeeps(events);
    hide ReachedBook;
  }

  lemma {:induction false} NeverShut(b: Book, events: seq<Event>)
    requires b.shut == {} && Shutdown !in events
    ensures RunBook(b, events).shut == {}
    decreases |events|
  {
    if events != [] {
      NeverShut(React(b, events[0]), events[1..]);
    }
  }

  /** The dispatcher is at work on a disconnect. */
  predicate InLoop(at: Dispatcher) {
    at.Disconnecting? || ((at.Taking? || at.Calling? || at.Waiting?) && at.back.ToLoop?)
  }

  /** Nothing takes the dispatcher out of that loop but having no room left. */
  lemma LoopRunsToEnd(b: Book, e: Event)
    requires InLoop(b.at) && !InLoop(React(b, e).at)
    ensures e == EndDisconnect && b.at == Disconnecting({}) && React(b, e) == b.(at := Idle)
  {
  }

  lemma {:induction false} LoopEmpties(b: Book, events: seq<Event>)
    requires BookInv(b) && InLoop(b.at) && RunBook(b, events).at.Idle?
    requires forall k :: 0 <= k < |events| ==> !RunBook(b, events[..k]).at.Idle?
    ensures RunBook(b, events).rooms == map[]
    decreases |events|
  {
    hide MapInv, CallInv, SessionInv;
    var b' := React(b, events[0]);
    ReactKeeps(b, events[0]);
    assert RunBook(b, events) == RunBook(b', events[1..]);
    if InLoop(b'.at) {
      forall k | 0 <= k < |events| - 1 ensures !RunBook(b', events[1..][..k]).at.Idle? {
        assert events[..k + 1][1..] == events[1..][..k];
        assert RunBook(b, events[..k + 1]) == RunBook(b', events[1..][..k]);
      }
      hide React, LoopInv, BookInv;
      LoopEmpties(b', events[1..]);
    } else {
      LoopRunsToEnd(b, events[0]);
      assert b.rooms.Keys == {};
      assert RunBook(b, events[..1]) == b' by { assert events[..1][1..] == []; }
      assert |events| == 1;
      assert events[1..] == [];
    }
  }

  /** A registered SFU disconnects; by the time the dispatcher is free again, the map is empty, and no
      live session is left except of recordings that Shutdown took. Nothing is asked of how the calls of
      Stop end. */
  lemma DisconnectEmpties(before: seq<Event>, during: seq<Event>)
    requires ReachedBook(before).at.Idle? && ReachedBook(before).connected
    requires ReachedBook(before + [Disconnect] + during).at.Idle?
    requires forall k :: 0 <= k < |during| ==> !ReachedBook(before + [Disconnect] + during[..k]).at.Idle?
    ensures var b := ReachedBook(before + [Disconnect] + during);
            && b.rooms == map[]
            && (forall room :: room in b.live ==> b.live[room] in b.shut)
            && (Shutdown !in before && Shutdown !in during ==> b.live == map[])
  {
    hide BookInv, RunBook;
    var first := before + [Disconnect];
    var b1, b2 := ReachedBook(first), ReachedBook(first + during);
    RunBookConcat(NewBook(), before, [Disconnect]);
    assert b1 == React(ReachedBook(before), Disconnect) by { RunOneEvent(ReachedBook(before), Disconnect); }
    forall k | 0 <= k <= |during| ensures ReachedBook(first + during[..k]) == RunBook(b1, during[..k]) {
      RunBookConcat(NewBook(), first, during[..k]);
    }
    assert during[..|during|] == during;
    ReachedKeeps(first);
    LoopEmpties(b1, during);
    ReachedKeeps(first + during);
    NothingLive(b2);
    if Shutdown !in before && Shutdown !in during {
      NeverShut(NewBook(), first + during);
      assert b2.live.Keys == {};
    }
  }

  lemma RunOneEvent(b: Book, e: Event)
    ensures RunBook(b, [e]) == React(b, e)
  {
    hide React;
    assert [e][1..] == [];
  }

  /** With no recording in the map, every live session belongs to one that Shutdown took. */
  lemma NothingLive(b: Book)
    requires BookInv(b) && b.rooms == map[]
    ensures forall room :: room in b.live ==> b.live[room] in b.shut
  {
    hide MapInv, CallInv, LoopInv;
  }

  // ---------------------------------------------------------------- one recording per room

  /** No two recordings of the room both still record. */
  ghost predicate AtMostOne(b: Book, room: string) {
    forall h, k :: 0 <= h < k < |b.roomOf| && k < |b.stopCalls| && b.roomOf[h] == room && b.roomOf[k] == room ==>
      b.stopCalls[h] != 0 || b.stopCalls[k] != 0
  }

  /** The start request creates a recording. */
  predicate Starts(b: Book, e: Event, room: string) {
    e == StartRequest(room) && b.at.Idle? && room !in b.rooms
  }

  /** Shutdown has taken a recording of the room and has not called its Stop yet. */
  ghost predicate ShuttingDown(b: Book, room: string) {
    exists h :: h in b.closing && h < |b.roomOf| && b.roomOf[h] == room
  }

  /** A start leaves at most one live recording of the room, if and only if no recording of it waits in
      Shutdown's hands. */
  lemma StartSafeIff(b: Book, room: string)
    requires BookInv(b) && AtMostOne(b, room) && Starts(b, StartRequest(room), room)
    ensures AtMostOne(React(b, StartRequest(room)), room) <==> !ShuttingDown(b, room)
  {
    hide SessionInv, LoopInv;
    var b', n := React(b, StartRequest(room)), |b.roomOf|;
    assert b'.roomOf == b.roomOf + [room] && b'.stopCalls == b.stopCalls + [0];
    if ShuttingDown(b, room) {
      var h :| h in b.closing && h < n && b.roomOf[h] == room;
      assert InHands(b, h) && b.stopCalls[h] == 0;
      assert b'.roomOf[h] == room && b'.roomOf[n] == room && b'.stopCalls[h] == 0 && b'.stopCalls[n] == 0;
    } else {
      forall h, k | 0 <= h < k < |b'.roomOf| && b'.roomOf[h] == room && b'.roomOf[k] == room
        ensures b'.stopCalls[h] != 0 || b'.stopCalls[k] != 0
      {
        if k < n {
          assert b.roomOf[h] == room && b.roomOf[k] == room;
        } else {
          assert b.roomOf[h] == room && !InMap(b, h) && h !in b.closing;
        }
      }
    }
  }

  /** Any other event leaves the recordings of the room as they are, or stops one. */
  lemma NothingStarted(b: Book, e: Event, room: string)
    requires Shaped(b) && !Starts(b, e, room) && (b.at.Calling? ==> b.at.rec < |b.roomOf|)
    ensures var b' := React(b, e);
            && |b.roomOf| <= |b'.roomOf| && |b.stopCalls| <= |b'.stopCalls|
            && (forall h :: 0 <= h < |b.roomOf| ==> b'.roomOf[h] == b.roomOf[h] && b'.stopCalls[h] >= b.stopCalls[h])
            && (forall h :: |b.roomOf| <= h < |b'.roomOf| ==> b'.roomOf[h] != room)
  {
  }

  /** Nothing but a start brings a second live recording. */
  lemma OthersKeepOne(b: Book, e: Event, room: string)
    requires BookInv(b) && AtMostOne(b, room) && !Starts(b, e, room)
    ensures AtMostOne(React(b, e), room)
  {
    hide CallInv, SessionInv, LoopInv, InMap, InHands;
    NothingStarted(b, e, room);
    hide React, BookInv, Shaped, Starts;
  }

  /** Every effective start of the room meets no recording of it in Shutdown's hands. */
  ghost predicate StartsApart(b: Book, events: seq<Event>, room: string)
    decreases |events|
  {
    events == []
    || ((Starts(b, events[0], room) ==> !ShuttingDown(b, room)) && StartsApart(React(b, events[0]), events[1..], room))
  }

  lemma {:induction false} OneFromHere(b: Book, events: seq<Event>, room: string)
    requires BookInv(b) && AtMostOne(b, room)
    ensures (forall k :: 0 <= k <= |events| ==> AtMostOne(RunBook(b, events[..k]), room)) <==> StartsApart(b, events, room)
    decreases |events|
  {
    hide BookInv, React, AtMostOne, ShuttingDown, Starts;
    if events == [] {
      assert events[..0] == [];
    } else {
      var b' := React(b, events[0]);
      ReactKeeps(b, events[0]);
      if Starts(b, events[0], room) {
        StartOf(b, events[0], room);
        StartSafeIff(b, room);
      } else {
        OthersKeepOne(b, events[0], room);
      }
      forall k | 0 <= k < |events| ensures RunBook(b, events[..k + 1]) == RunBook(b', events[1..][..k]) {
        assert events[..k + 1][1..] == events[1..][..k];
      }
      if AtMostOne(b', room) {
        OneFromHere(b', events[1..], room);
        PrefixesShift(b, events, room);
      } else {
        assert events[1..][..0] == [];
        assert !AtMostOne(RunBook(b, events[..0 + 1]), room);
      }
    }
  }

  lemma StartOf(b: Book, e: Event, room: string)
    requires Starts(b, e, room)
    ensures e == StartRequest(room)
  {
  }

  lemma PrefixesShift(b: Book, events: seq<Event>, room: string)
    requires events != [] && AtMostOne(b, room)
    requires forall k :: 0 <= k < |events| ==> RunBook(b, events[..k + 1]) == RunBook(React(b, events[0]), events[1..][..k])
    ensures (forall k :: 0 <= k <= |events| ==> AtMostOne(RunBook(b, events[..k]), room))
       <==> (forall k :: 0 <= k <= |events[1..]| ==> AtMostOne(RunBook(React(b, events[0]), events[1..][..k]), room))
  {
    hide React, AtMostOne;
    var b', rest := React(b, events[0]), events[1..];
    if forall k :: 0 <= k <= |events| ==> AtMostOne(RunBook(b, events[..k]), room) {
      forall k | 0 <= k <= |rest| ensures AtMostOne(RunBook(b', rest[..k]), room) {
        assert AtMostOne(RunBook(b, events[..k + 1]), room);
      }
    }
    if forall k :: 0 <= k <= |rest| ==> AtMostOne(RunBook(b', rest[..k]), room) {
      forall k | 0 <= k <= |events| ensures AtMostOne(RunBook(b, events[..k]), room) {
        if k == 0 {
          assert events[..0] == [];
        } else {
          assert RunBook(b, events[..(k - 1) + 1]) == RunBook(b', rest[..k - 1]);
        }
      }
    }
  }

  /** For every run: a room never has two live recordings at any moment, if and only if no start of it
      succeeds while Shutdown holds an unstopped recording of that room. */
  lemma OneRecordingPerRoom(events: seq<Event>, room: string)
    ensures (forall k :: 0 <= k <= |events| ==> AtMostOne(ReachedBook(events[..k]), room))
       <==> StartsApart(NewBook(), events, room)
  {
    hide RunBook, StartsApart;
    NewBookInv();
    OneFromHere(NewBook(), events, room);
  }

  lemma ThreeEvents(a: Event, b: Event, c: Event)
    ensures ReachedBook([a, b, c]) == React(React(React(NewBook(), a), b), c)
  {
    hide React;
    var r1 := React(NewBook(), a);
    assert [a, b, c][1..] == [b, c] && [b, c][1..] == [c];
    assert RunBook(r1, [b, c]) == RunBook(React(r1, b), [c]);
    RunOneEvent(React(r1, b), c);
  }

  /** A shutdown while a session is live leaves that session behind. */
  lemma ShutdownLeavesSession(room: string)
    ensures var b := ReachedBook([StartRequest(room), FinishStart(true), Shutdown]);
            b.at.Idle? && room in b.live && room !in b.rooms && b.live[room] in b.closing
  {
    ThreeEvents(StartRequest(room), FinishStart(true), Shutdown);
    hide ReachedBook;
    var b := React(React(NewBook(), StartRequest(room)), FinishStart(true));
    assert room in b.rooms && b.rooms[room] == 0;
    assert 0 in b.rooms.Values;
  }

  /** A start while Shutdown is still stopping: two recordings of one room record at the same time. */
  lemma RestartDuringShutdown(room: string)
    ensures var b := React(ReachedBook([StartRequest(room), FinishStart(true), Shutdown]), StartRequest(room));
            b.roomOf == [room, room] && b.stopCalls == [0, 0] && b.rooms == map[room := 1] && 0 in b.closing
  {
    ShutdownLeavesSession(room);
    ThreeEvents(StartRequest(room), FinishStart(true), Shutdown);
    hide ReachedBook;
  }

  // ---------------------------------------------------------------- what a message achieves

  lemma FourEvents(b: Book, e: Event, f: Event, g: Event, h: Event)
    ensures RunBook(b, [e, f]) == React(React(b, e), f)
    ensures RunBook(b, [e, f, g, h]) == React(React(React(React(b, e), f), g), h)
  {
    hide React;
    var b1 := React(b, e);
    assert [e, f][1..] == [f];
    RunOneEvent(b1, f);
    assert [e, f, g, h][1..] == [f, g, h] && [f, g, h][1..] == [g, h] && [g, h][1..] == [h];
    assert RunBook(b1, [f, g, h]) == RunBook(React(b1, f), [g, h]);
    RunOneEvent(React(React(b1, f), g), h);
  }

  /** In every run: a start request that an idle dispatcher handles to the end puts a new recording of the room
      into the map, and a session for it if there is to be one, unless the room is there already. */
  lemma StartAchieves(events: seq<Event>, room: string, session: bool)
    requires ReachedBook(events).at.Idle?
    ensures var b := ReachedBook(events);
            var b', n := RunBook(b, [StartRequest(room), FinishStart(session)]), |b.roomOf|;
            && b'.at.Idle?
            && if room in b.rooms then b' == b
               else b'.rooms == b.rooms[room := n] && b'.roomOf == b.roomOf + [room] && b'.stopCalls == b.stopCalls + [0]
                    && b'.live == if session then b.live[room := n] else b.live
  {
    hide ReachedBook;
    FourEvents(ReachedBook(events), StartRequest(room), FinishStart(session), Take, Take);
  }

  /** In every run: a stop request that an idle dispatcher handles to the end takes the recording of the room out of
      the map, and the session, and calls its Stop exactly once; without a recording it ends at most the session. */
  lemma StopAchieves(events: seq<Event>, room: string)
    requires ReachedBook(events).at.Idle?
    ensures var b := ReachedBook(events);
            if room in b.rooms
            then
              var b' := RunBook(b, [StopRequest(room), Take, Call, Return]);
              && b'.at.Idle? && b'.rooms == b.rooms - {room} && b'.live == b.live - {room} && b'.roomOf == b.roomOf
              && b.rooms[room] < |b.stopCalls| && b.stopCalls[b.rooms[room]] == 0
              && b'.stopCalls == b.stopCalls[b.rooms[room] := 1]
            else
              var b' := RunBook(b, [StopRequest(room), Take]);
              b'.at.Idle? && b'.rooms == b.rooms && b'.live == b.live - {room} && b'.stopCalls == b.stopCalls
  {
    var b := ReachedBook(events);
    ReachedKeeps(events);
    hide ReachedBook, SessionInv, LoopInv;
    if room in b.rooms {
      assert InMap(b, b.rooms[room]);
    }
    FourEvents(b, StopRequest(room), Take, Call, Return);
  }

  /** In every run: Register connects, and Disconnect of a connected SFU lists every room in the map; Shutdown takes
      every recording in the map, and each of its calls stops one of them. */
  lemma OthersAchieve(events: seq<Event>, rec: nat)
    ensures var b := ReachedBook(events);
            && (b.at.Idle? ==> React(b, Register) == b.(connected := true))
            && (b.at.Idle? && b.connected ==> React(b, Disconnect) == b.(connected := false, at := Disconnecting(b.rooms.Keys)))
            && (var b' := React(b, Shutdown);
                b'.rooms == map[] && b'.at == b.at && b'.live == b.live && b'.stopCalls == b.stopCalls
                && forall h :: h in b'.closing <==> h in b.closing || exists x :: x in b.rooms && b.rooms[x] == h)
            && (rec in b.closing ==>
                  rec < |b.stopCalls| && b.stopCalls[rec] == 0
                  && React(b, ShutdownCall(rec)).stopCalls == b.stopCalls[rec := 1]
                  && React(b, ShutdownCall(rec)).closing == b.closing - {rec})
  {
    var b := ReachedBook(events);
    ReachedKeeps(events);
    hide ReachedBook, SessionInv, LoopInv;
    if rec in b.closing {
      assert InHands(b, rec);
    }
  }

  /** Whatever is being waited for has been called. */
  ghost predicate WaitInv(b: Book) {
    b.at.Waiting? ==> b.at.rec < |b.stopCalls| && b.stopCalls[b.at.rec] != 0
  }

  lemma WaitKept(b: Book, e: Event)
    requires BookInv(b) && WaitInv(b)
    ensures WaitInv(React(b, e))
  {
    hide CallInv, SessionInv, LoopInv, InMap;
  }
}
