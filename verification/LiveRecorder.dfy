/** Quick-access parts are cut twice: live, by a timer, and again when the recording stops. This file
    models both and the way they interleave. */
module LiveRecorder {
  import opened GoTypes
  import opened Parts
  import Keys

  const QUICK_LABEL := "Quick Access"
  const LATE_LABEL := "Final Export"

  function QuickPrefix(roomID: string, recordingID: string): string {
    Keys.RecordingPrefix(roomID, recordingID) + "quick_access/part-"
  }

  function LatePrefix(roomID: string, recordingID: string): string {
    Keys.RecordingPrefix(roomID, recordingID) + "processed/exports/part-"
  }

  /** The late-composite half of buildRecordingPartsForPolicy. */
  function LatePartsOf(roomID: string, recordingID: string, duration: Int64, partDurationSec: Int32): seq<RecordingPart> {
    if duration <= 0 then [] else PartsOf(duration, partDurationSec, LatePrefix(roomID, recordingID), LATE_LABEL)
  }

  /** The quick-access half of buildRecordingPartsForPolicy. */
  function QuickPartsOf(roomID: string, recordingID: string, duration: Int64, partDurationSec: Int32): seq<RecordingPart> {
    if duration <= 0 then [] else PartsOf(duration, partDurationSec, QuickPrefix(roomID, recordingID), QUICK_LABEL)
  }

  /** buildPart as processQuickAccessBoundary calls it for index `k`. */
  function LivePart(roomID: string, recordingID: string, k: Int32, partDuration: Int64): RecordingPart {
    var start := Wrap64(Wrap32(k - 1) * partDuration);
    var end := Wrap64(k * partDuration);
    RecordingPart(k, Keys.RecordingPrefix(roomID, recordingID) + "quick_access" + "/part-" + PartName(k),
                  Milliseconds(start), Milliseconds(end), Milliseconds(Wrap64(end - start)), PartLabel(QUICK_LABEL, k))
  }

  /** The two pieces of code agree field for field, key and label included, on every part that ended
      within the recording. */
  lemma LivePartAgrees(roomID: string, recordingID: string, k: Int32, duration: Int64, partDurationSec: Int32)
    requires partDurationSec > 0 && k >= 1 && k * (partDurationSec * SECOND) <= duration
    ensures var parts := QuickPartsOf(roomID, recordingID, duration, partDurationSec);
            k <= |parts| && LivePart(roomID, recordingID, k, partDurationSec * SECOND) == parts[k - 1]
  {
    hide PartCount, PartName, PartLabel, Wrap64, Wrap32, Milliseconds;
    var pd := partDurationSec * SECOND;
    OneMore(k - 1, pd);
    MultipleOrder(0, k - 1, pd);
    CountBounds(duration, pd);
    var n := PartCount(duration, pd);
    if n < k {
      MultipleOrder(n, k - 1, pd);
    }
    WrapIdentity((k - 1) * pd);
    WrapIdentity(k * pd);
    WrapIdentity(k - 1);
    WrapIdentity(k);
    assert QuickPrefix(roomID, recordingID) + PartName(k)
        == Keys.RecordingPrefix(roomID, recordingID) + "quick_access" + "/part-" + PartName(k);
  }

  /** A live part is named after its index, under the prefix of the final quick-access parts. */
  lemma LivePartNamed(roomID: string, recordingID: string, k: Int32, partDuration: Int64)
    requires k >= 1
    ensures var p := LivePart(roomID, recordingID, k, partDuration);
            && NumberedKey(p.key, Keys.RecordingPrefix(roomID, recordingID) + "quick_access/part-", k)
            && NumberedLabel(p.partLabel, "Quick Access", k)
  {
    hide PartName, PartLabel, NumberedKey, NumberedLabel, Wrap64, Wrap32, Milliseconds, Keys.RecordingPrefix;
    NameOfIndex(k, Keys.RecordingPrefix(roomID, recordingID) + "quick_access/part-", "Quick Access");
    assert Keys.RecordingPrefix(roomID, recordingID) + "quick_access" + "/part-"
        == Keys.RecordingPrefix(roomID, recordingID) + "quick_access/part-";
  }

  lemma AfterPrefix(key: string, prefix: string, folder: string, n: int)
    requires folder != "" && NumberedKey(key, prefix + folder, n)
    ensures |key| > |prefix| && key[|prefix|] == folder[0]
  {
    hide Denotes;
    var d :| Denotes(d, n) && key == prefix + folder + d + ".mp4";
    assert (prefix + folder)[|prefix|] == folder[0];
  }

  /** A quick-access part and a late-composite part of one recording never share a key. */
  lemma QuickAndLateApart(roomID: string, recordingID: string, key: string, n: int, m: int)
    requires NumberedKey(key, QuickPrefix(roomID, recordingID), n)
    ensures !NumberedKey(key, LatePrefix(roomID, recordingID), m)
  {
    hide NumberedKey, Keys.RecordingPrefix;
    AfterPrefix(key, Keys.RecordingPrefix(roomID, recordingID), "quick_access/part-", n);
    if NumberedKey(key, LatePrefix(roomID, recordingID), m) {
      AfterPrefix(key, Keys.RecordingPrefix(roomID, recordingID), "processed/exports/part-", m);
    }
  }

  // ---------------------------------------------------------------- the session object

  /** liveSession: what the timer goroutine updates. */
  class LiveSession {
    const roomID: string
    const recordingID: string
    const quickPartDuration: Int64
    var nextQuickIndex: Int32
    var quickParts: seq<RecordingPart>
    var cancelled: bool

    constructor (roomID: string, recordingID: string, partDurationSec: Int32)
      ensures this.roomID == roomID && this.recordingID == recordingID
      ensures quickPartDuration == if partDurationSec > 0 then partDurationSec * SECOND else 0
      ensures nextQuickIndex == (if partDurationSec > 0 then 1 else 0) && quickParts == [] && !cancelled
    {
      this.roomID, this.recordingID := roomID, recordingID;
      quickPartDuration := if partDurationSec > 0 then partDurationSec * SECOND else 0;
      nextQuickIndex, quickParts, cancelled := if partDurationSec > 0 then 1 else 0, [], false;
    }

    method Cancel()
      modifies this`cancelled
      ensures cancelled
    {
      cancelled := true;
    }

    /** The session as the model sees it. */
    ghost predicate Shows(l: Live)
      reads this
    {
      && l.roomID == roomID && l.recordingID == recordingID && l.next == nextQuickIndex && l.quickParts == quickParts
      && (l.partDurationSec > 0 ==> PartDuration(l) == quickPartDuration)
    }

    /** The part bookkeeping of one timer boundary: in the model, the timer's claim and its move to the
        next index. */
    method ProcessQuickAccessBoundary(ghost l: Live)
      requires Shows(l) && l.partDurationSec > 0 && l.timer.Waiting? && l.elapsed >= Wrap64(l.next * PartDuration(l))
      modifies this`quickParts, this`nextQuickIndex
      ensures Shows(Next(Next(l, Claim), Advance))
      ensures quickParts == old(quickParts) + [LivePart(roomID, recordingID, old(nextQuickIndex), quickPartDuration)]
      ensures nextQuickIndex == Wrap32(old(nextQuickIndex) + 1)
    {
      hide PartName, PartLabel, Wrap64, Milliseconds;
      var startOffset: int := Wrap64(Wrap32(nextQuickIndex - 1) * quickPartDuration);
      var endOffset: int := Wrap64(nextQuickIndex * quickPartDuration);
      var key := Keys.RecordingPrefix(roomID, recordingID) + "quick_access" + "/part-" + PartName(nextQuickIndex);
      var part := RecordingPart(nextQuickIndex, key, Milliseconds(startOffset), Milliseconds(endOffset),
                                Milliseconds(Wrap64(endOffset - startOffset)), PartLabel(QUICK_LABEL, nextQuickIndex));
      quickParts := quickParts + [part];
      nextQuickIndex := Wrap32(nextQuickIndex + 1);
    }
  }

  function Indices(parts: seq<RecordingPart>): set<int> {
    set i | 0 <= i < |parts| :: parts[i].index as int
  }

  /** The final parts that the live recorder has not claimed, in order. */
  function Unclaimed(parts: seq<RecordingPart>, claimed: set<int>): seq<RecordingPart> {
    if parts == [] then []
    else
      var last := parts[|parts| - 1];
      Unclaimed(parts[..|parts| - 1], claimed) + if last.index as int in claimed then [] else [last]
  }

  /** queueFinalExports: collect the claimed indices, queue the other quick-access parts, then all late
      composite ones; nothing without a compositer or for a recording without length. */
  method QueueFinalExports(compositer: bool, claimedParts: seq<RecordingPart>, duration: Int64,
                           quick: bool, quickParts: seq<RecordingPart>, late: bool, lateParts: seq<RecordingPart>)
    returns (queuedParts: seq<RecordingPart>, queuedLate: seq<RecordingPart>)
    ensures queuedParts == if compositer && duration > 0 && quick then Unclaimed(quickParts, Indices(claimedParts)) else []
    ensures queuedLate == if compositer && duration > 0 && late then lateParts else []
  {
    queuedParts, queuedLate := [], [];
    if !compositer || duration <= 0 {
      return;
    }
    if quick {
      queuedParts := QueueUnclaimed(claimedParts, quickParts);
    }
    if late {
      for i := 0 to |lateParts|
        invariant queuedLate == lateParts[..i]
      {
        assert lateParts[..i + 1] == lateParts[..i] + [lateParts[i]];
        queuedLate := queuedLate + [lateParts[i]];
      }
    }
  }

  /** The two loops over quick-access parts. */
  method QueueUnclaimed(claimedParts: seq<RecordingPart>, quickParts: seq<RecordingPart>) returns (queued: seq<RecordingPart>)
    ensures queued == Unclaimed(quickParts, Indices(claimedParts))
  {
    var queuedQuick: set<int> := {};
    for i := 0 to |claimedParts|
      invariant queuedQuick == Indices(claimedParts[..i])
    {
      assert claimedParts[..i + 1] == claimedParts[..i] + [claimedParts[i]];
      IndicesAppend(claimedParts[..i], claimedParts[i]);
      queuedQuick := queuedQuick + {claimedParts[i].index as int};
    }
    assert claimedParts[..|claimedParts|] == claimedParts;
    queued := [];
    for i := 0 to |quickParts|
      invariant queued == Unclaimed(quickParts[..i], queuedQuick)
    {
      assert quickParts[..i + 1][..i] == quickParts[..i];
      if quickParts[i].index as int !in queuedQuick {
        queued := queued + [quickParts[i]];
      } else {
        assert queued + [] == queued;
      }
    }
    assert quickParts[..|quickParts|] == quickParts;
  }

  lemma IndicesAppend(parts: seq<RecordingPart>, p: RecordingPart)
    ensures Indices(parts + [p]) == Indices(parts) + {p.index as int}
  {
    assert forall i :: 0 <= i < |parts| ==> (parts + [p])[i] == parts[i];
    assert (parts + [p])[|parts|] == p;
  }

  // ---------------------------------------------------------------- live and final, interleaved

  /** Where the timer goroutine is: waiting for the timer, between claiming a part and moving on to the
      next index, or gone. */
  datatype Timer = Waiting | Claimed | Exited

  /** Where the stop handler is; `snapshot` is what it found claimed when it queued the rest. */
  datatype StopState =
    | Running
    | Measured(duration: Int64)
    | Cancelled(duration: Int64)
    | Done(duration: Int64, finalParts: seq<RecordingPart>, snapshot: seq<RecordingPart>, queued: seq<RecordingPart>)

  datatype Live = Live(
    roomID: string,
    recordingID: string,
    partDurationSec: Int32,
    elapsed: int, // the clock, counted from the start of the recording
    next: Int32,
    quickParts: seq<RecordingPart>,
    timer: Timer,
    stop: StopState)

  /** Without a positive part length the goroutine leaves at once. */
  function Start(roomID: string, recordingID: string, partDurationSec: Int32): Live {
    if partDurationSec > 0
    then Live(roomID, recordingID, partDurationSec, 0, 1, [], Waiting, Running)
    else Live(roomID, recordingID, partDurationSec, 0, 0, [], Exited, Running)
  }

  datatype Event =
    | Tick(dt: nat)
    | Claim // the timer has fired: append the part under the session lock
    | Advance // nextQuickIndex++
    | Exit // the goroutine notices the cancellation
    | Measure // the stop handler reads the duration
    | Cancel // it takes the session out and cancels it
    | Final // it snapshots the claimed parts and queues the others

  function PartDuration(l: Live): Int64 {
    l.partDurationSec * SECOND
  }

  function FinalParts(l: Live, duration: Int64): seq<RecordingPart> {
    QuickPartsOf(l.roomID, l.recordingID, duration, l.partDurationSec)
  }

  /** An event that is not possible in a state changes nothing. A fired timer may still win against
      a cancellation, so Claim does not look at `stop`. */
  function Next(l: Live, e: Event): Live {
    match e
    case Tick(dt) => l.(elapsed := l.elapsed + dt)
    case Claim =>
      if l.timer.Waiting? && l.elapsed >= Wrap64(l.next * PartDuration(l))
      then l.(quickParts := l.quickParts + [LivePart(l.roomID, l.recordingID, l.next, PartDuration(l))], timer := Claimed)
      else l
    case Advance => if l.timer.Claimed? then l.(next := Wrap32(l.next + 1), timer := Waiting) else l
    case Exit => if l.timer.Waiting? && (l.stop.Cancelled? || l.stop.Done?) then l.(timer := Exited) else l
    case Measure => if l.stop.Running? then l.(stop := Measured(Since(l.elapsed))) else l
    case Cancel => if l.stop.Measured? then l.(stop := Cancelled(l.stop.duration)) else l
    case Final =>
      if !l.stop.Cancelled? then l
      else
        var parts := FinalParts(l, l.stop.duration);
        l.(stop := Done(l.stop.duration, parts, l.quickParts, Unclaimed(parts, Indices(l.quickParts))))
  }

  function RunLive(l: Live, events: seq<Event>): Live
    decreases |events|
  {
    if events == [] then l else RunLive(Next(l, events[0]), events[1..])
  }

  /** The last part whose index fits int32 and whose end offset fits int64. */
  function LastIndex(partDurationSec: Int32): int
    requires partDurationSec > 0
  {
    if MAX_INT64 / (partDurationSec * SECOND) < MAX_INT32 then MAX_INT64 / (partDurationSec * SECOND) else MAX_INT32
  }

  /** Where that part ends; until then no integer of the live recorder overflows. */
  function Horizon(partDurationSec: Int32): (h: int)
    ensures h <= MAX_INT64
  {
    if partDurationSec <= 0 then MAX_INT64
    else
      LastEnds(partDurationSec);
      LastIndex(partDurationSec) * (partDurationSec * SECOND)
  }

  lemma LastEnds(partDurationSec: Int32)
    requires partDurationSec > 0
    ensures 0 < LastIndex(partDurationSec) <= MAX_INT32
    ensures LastIndex(partDurationSec) * (partDurationSec * SECOND) <= MAX_INT64
  {
    var pd := partDurationSec * SECOND;
    var q := MAX_INT64 / pd;
    assert MAX_INT64 == q * pd + MAX_INT64 % pd;
    if q >= MAX_INT32 {
      MultipleOrder(MAX_INT32, q, pd);
    }
  }

  /** The claimed parts are 1, 2, ... without gap or repetition, each one ended in the past. */
  ghost predicate ClaimsInOrder(l: Live) {
    && |l.quickParts| * PartDuration(l) <= l.elapsed
    && (l.timer.Waiting? ==> l.next == |l.quickParts| + 1)
    && (l.timer.Claimed? ==> l.next == |l.quickParts|)
    && (forall i :: 0 <= i < |l.quickParts| ==>
          i + 1 < MAX_INT32 && l.quickParts[i] == LivePart(l.roomID, l.recordingID, i + 1, PartDuration(l)))
  }

  /** The stop handler measured a length that has passed, and its snapshot is a prefix of the claims. */
  ghost predicate StopInOrder(l: Live) {
    && (!l.stop.Running? ==> 0 <= l.stop.duration <= l.elapsed)
    && (l.stop.Done? ==>
          && l.stop.finalParts == FinalParts(l, l.stop.duration)
          && l.stop.snapshot <= l.quickParts
          && l.stop.queued == Unclaimed(l.stop.finalParts, Indices(l.stop.snapshot)))
  }

  ghost predicate LiveInv(l: Live) {
    && l.elapsed >= 0
    && (l.partDurationSec <= 0 ==> l.timer.Exited? && l.quickParts == [])
    && (l.elapsed < Horizon(l.partDurationSec) ==> ClaimsInOrder(l) && StopInOrder(l))
  }

  /** Within the horizon, fewer parts than the last one end, and the next one's end offset fits. */
  lemma FewParts(n: nat, partDurationSec: Int32)
    requires partDurationSec > 0 && n * (partDurationSec * SECOND) < Horizon(partDurationSec)
    ensures n < MAX_INT32 && (n + 1) * (partDurationSec * SECOND) <= MAX_INT64
  {
    hide LastIndex;
    LastEnds(partDurationSec);
    var last, pd := LastIndex(partDurationSec), partDurationSec * SECOND;
    if n >= last {
      MultipleOrder(last, n, pd);
    } else {
      MultipleOrder(n + 1, last, pd);
    }
  }

  /** A recording that ends within the horizon is tiled by its final parts. */
  lemma HorizonTiles(duration: Int64, partDurationSec: Int32, keyPrefix: string, labelPrefix: string)
    requires partDurationSec > 0 && 0 < duration < Horizon(partDurationSec)
    ensures Tiles(PartsOf(duration, partDurationSec, keyPrefix, labelPrefix), duration, partDurationSec)
  {
    hide PartCount, PartsOf, Tiles, Horizon;
    var pd := partDurationSec * SECOND;
    var n := PartCount(duration, pd);
    CountBounds(duration, pd);
    FewParts(n - 1, partDurationSec);
    TilingIff(duration, partDurationSec, keyPrefix, labelPrefix);
  }

  /** The horizon is exact: when the last part has been claimed and the recorder moves on, the timer fires
      at once, whatever the clock says. */
  lemma HorizonExact(l: Live)
    requires l.partDurationSec > 0 && l.timer.Claimed? && l.next == LastIndex(l.partDurationSec) && l.elapsed >= 0
    ensures var n := Next(Next(l, Advance), Claim); |n.quickParts| == |l.quickParts| + 1 && n.elapsed == l.elapsed
  {
    hide LivePart;
    var pd, m := PartDuration(l), Next(l, Advance);
    LastEnds(l.partDurationSec);
    OneMore(l.next, pd);
    if l.next == MAX_INT32 {
      FirstNegative(l.partDurationSec);
      assert m.next == -0x8000_0000;
      assert m.next * pd == -0x8000_0000 * pd;
      WrapIdentity(m.next * pd);
    } else {
      assert m.next == l.next + 1;
      BeyondLast(l.partDurationSec);
      WrapIdentity((l.next + 1) * pd);
    }
    assert Wrap64(m.next * pd) <= 0;
  }

  /** A run in which every boundary is claimed on time. */
  function Boundaries(partDurationSec: Int32, n: nat): seq<Event>
    requires partDurationSec > 0 && n > 0
  {
    (if n == 1 then [] else Boundaries(partDurationSec, n - 1) + [Advance]) + [Tick(partDurationSec * SECOND), Claim]
  }

  lemma {:induction false} AtBoundary(roomID: string, recordingID: string, partDurationSec: Int32, n: nat)
    requires partDurationSec > 0 && 1 <= n <= LastIndex(partDurationSec)
    ensures var l := RunLive(Start(roomID, recordingID, partDurationSec), Boundaries(partDurationSec, n));
            && l.timer.Claimed? && l.next == n == |l.quickParts| && l.partDurationSec == partDurationSec
            && l.elapsed == n * (partDurationSec * SECOND)
    decreases n
  {
    hide LivePart, LastIndex, Wrap32;
    var pd, l0 := partDurationSec * SECOND, Start(roomID, recordingID, partDurationSec);
    LastEnds(partDurationSec);
    MultipleOrder(n, LastIndex(partDurationSec), pd);
    WrapIdentity(n * pd);
    WrapIdentity(n);
    OneMore(n - 1, pd);
    if n == 1 {
      TwoEvents(l0, Tick(pd), Claim, []);
      assert [Tick(pd), Claim] + [] == Boundaries(partDurationSec, n);
    } else {
      AtBoundary(roomID, recordingID, partDurationSec, n - 1);
      var before := Boundaries(partDurationSec, n - 1);
      RunLiveConcat(l0, before + [Advance], [Tick(pd), Claim]);
      RunLiveConcat(l0, before, [Advance]);
      var l := RunLive(l0, before);
      assert [Advance][1..] == [] && RunLive(l, [Advance]) == Next(l, Advance);
      TwoEvents(Next(l, Advance), Tick(pd), Claim, []);
      assert [Tick(pd), Claim] + [] == [Tick(pd), Claim];
    }
  }

  /** And some run gets there, for every part length: at the horizon, to the nanosecond, one part more is
      claimed than has ended. */
  lemma HorizonReached(roomID: string, recordingID: string, partDurationSec: Int32)
    requires partDurationSec > 0
    ensures LastIndex(partDurationSec) > 0
    ensures var l := RunLive(Start(roomID, recordingID, partDurationSec),
                             Boundaries(partDurationSec, LastIndex(partDurationSec)) + [Advance, Claim]);
            && l.elapsed == Horizon(partDurationSec)
            && |l.quickParts| == LastIndex(partDurationSec) + 1 && l.elapsed < |l.quickParts| * PartDuration(l)
  {
    hide LivePart, LastIndex, Wrap32, Wrap64;
    LastEnds(partDurationSec);
    var n, l0 := LastIndex(partDurationSec), Start(roomID, recordingID, partDurationSec);
    AtBoundary(roomID, recordingID, partDurationSec, n);
    var l := RunLive(l0, Boundaries(partDurationSec, n));
    RunLiveConcat(l0, Boundaries(partDurationSec, n), [Advance, Claim]);
    TwoEvents(l, Advance, Claim, []);
    assert [Advance, Claim] + [] == [Advance, Claim];
    HorizonExact(l);
    OneMore(n, partDurationSec * SECOND);
    assert Next(Next(l, Advance), Claim).partDurationSec == partDurationSec;
  }

  lemma FirstNegative(partDurationSec: Int32)
    requires partDurationSec > 0 && LastIndex(partDurationSec) == MAX_INT32
    ensures -0x8000_0000_0000_0000 <= -0x8000_0000 * (partDurationSec * SECOND) < 0
  {
    var pd := partDurationSec * SECOND;
    LastEnds(partDurationSec);
    assert MAX_INT32 * pd <= MAX_INT64;
  }

  lemma BeyondLast(partDurationSec: Int32)
    requires partDurationSec > 0 && LastIndex(partDurationSec) < MAX_INT32
    ensures MAX_INT64 < (LastIndex(partDurationSec) + 1) * (partDurationSec * SECOND) <= 2 * MAX_INT64
  {
    var pd := partDurationSec * SECOND;
    var q := MAX_INT64 / pd;
    assert MAX_INT64 == q * pd + MAX_INT64 % pd;
    OneMore(q, pd);
  }

  lemma ClaimKeepsOrder(l: Live)
    requires LiveInv(l) && l.elapsed < Horizon(l.partDurationSec)
    ensures ClaimsInOrder(Next(l, Claim))
  {
    hide LivePart, Wrap64;
    if l.timer.Waiting? {
      var n, pd := |l.quickParts|, PartDuration(l);
      FewParts(n, l.partDurationSec);
      OneMore(n, pd);
      WrapIdentity((n + 1) * pd);
      if l.elapsed >= (n + 1) * pd {
        FewParts(n + 1, l.partDurationSec);
      }
    }
  }

  lemma AdvanceKeepsOrder(l: Live)
    requires LiveInv(l) && l.elapsed < Horizon(l.partDurationSec)
    ensures ClaimsInOrder(Next(l, Advance))
  {
    hide LivePart, Wrap32;
    if l.timer.Claimed? {
      FewParts(|l.quickParts|, l.partDurationSec);
      WrapIdentity(l.next + 1);
    }
  }

  /** What the stop handler does, and the clock, leave the claims alone. */
  lemma ClaimsUntouched(l: Live, r: Live)
    requires ClaimsInOrder(l) && r == l.(elapsed := r.elapsed, stop := r.stop) && r.elapsed >= l.elapsed
    ensures ClaimsInOrder(r)
  {
    hide LivePart;
    assert PartDuration(r) == PartDuration(l);
  }

  lemma NextKeepsOrder(l: Live, e: Event)
    requires LiveInv(l) && Next(l, e).elapsed < Horizon(l.partDurationSec)
    ensures ClaimsInOrder(Next(l, e))
  {
    hide LivePart, Wrap64, Wrap32, FinalParts, Unclaimed, Indices;
    match e {
      case Claim => ClaimKeepsOrder(l);
      case Advance => AdvanceKeepsOrder(l);
      case Exit =>
      case Tick(_) => hide ClaimsInOrder; ClaimsUntouched(l, Next(l, e));
      case Measure => hide ClaimsInOrder; ClaimsUntouched(l, Next(l, e));
      case Cancel => hide ClaimsInOrder; ClaimsUntouched(l, Next(l, e));
      case Final => hide ClaimsInOrder; ClaimsUntouched(l, Next(l, e));
    }
  }

  lemma NextKeepsStop(l: Live, e: Event)
    requires LiveInv(l) && Next(l, e).elapsed < Horizon(l.partDurationSec)
    ensures StopInOrder(Next(l, e))
  {
    hide ClaimsInOrder, LivePart, Wrap64, Wrap32, QuickPartsOf, Unclaimed, Indices, PartDuration;
  }

  lemma NextKeepsInv(l: Live, e: Event)
    requires LiveInv(l)
    ensures LiveInv(Next(l, e)) && Next(l, e).elapsed >= l.elapsed
  {
    hide ClaimsInOrder, StopInOrder, LivePart, Wrap64, Wrap32, Unclaimed, Indices, FinalParts, PartDuration;
    if Next(l, e).elapsed < Horizon(l.partDurationSec) {
      NextKeepsOrder(l, e);
      NextKeepsStop(l, e);
    }
  }

  lemma {:induction false} RunKeepsInv(l: Live, events: seq<Event>)
    requires LiveInv(l)
    ensures LiveInv(RunLive(l, events))
    decreases |events|
  {
    if events != [] {
      NextKeepsInv(l, events[0]);
      RunKeepsInv(Next(l, events[0]), events[1..]);
    }
  }

  lemma {:induction false} RunKeepsNames(l: Live, events: seq<Event>)
    ensures var r := RunLive(l, events);
            r.roomID == l.roomID && r.recordingID == l.recordingID && r.partDurationSec == l.partDurationSec
    decreases |events|
  {
    if events != [] {
      RunKeepsNames(Next(l, events[0]), events[1..]);
    }
  }

  /** Some run of the two goroutines leads here, within the horizon. */
  ghost predicate Reached(l: Live) {
    && l.elapsed < Horizon(l.partDurationSec)
    && exists events :: l == RunLive(Start(l.roomID, l.recordingID, l.partDurationSec), events)
  }

  lemma ReachedInv(l: Live)
    requires Reached(l)
    ensures LiveInv(l) && ClaimsInOrder(l) && StopInOrder(l) && l.elapsed < Horizon(l.partDurationSec)
  {
    var events :| l == RunLive(Start(l.roomID, l.recordingID, l.partDurationSec), events);
    RunKeepsInv(Start(l.roomID, l.recordingID, l.partDurationSec), events);
  }

  // ---------------------------------------------------------------- the two partitions together

  /** A live part runs from (k-1) part lengths to k part lengths, to the millisecond. */
  lemma LivePartExact(roomID: string, recordingID: string, k: Int32, partDurationSec: Int32)
    requires partDurationSec > 0 && 1 <= k && k * (partDurationSec * SECOND) <= MAX_INT64
    ensures var p := LivePart(roomID, recordingID, k, partDurationSec * SECOND);
            && p.index == k
            && p.startOffsetMs == (k - 1) * (partDurationSec * 1000)
            && p.endOffsetMs == k * (partDurationSec * 1000)
  {
    hide LivePart, PartName, PartLabel, Wrap64, Wrap32, Milliseconds, PartBetween;
    var pd := partDurationSec * SECOND;
    OneMore(k - 1, pd);
    MultipleOrder(0, k - 1, pd);
    LivePartAgrees(roomID, recordingID, k, k * pd, partDurationSec);
    ExactPart(k * pd, partDurationSec, QuickPrefix(roomID, recordingID), QUICK_LABEL, k - 1);
    assert LivePart(roomID, recordingID, k, pd) == PartAt(k * pd, pd, QuickPrefix(roomID, recordingID), QUICK_LABEL, k - 1);
  }

  /** In every run: the live parts are 1, 2, ... in order, part k spans [(k-1) * pd, k * pd), and it is,
      field for field, the part the stop-time split makes when the recording lasted at least that long. */
  lemma LivePartsAgree(l: Live, i: nat)
    requires Reached(l) && i < |l.quickParts|
    ensures l.partDurationSec > 0
    ensures l.quickParts[i].index == i + 1
    ensures l.quickParts[i].startOffsetMs == i * (l.partDurationSec * 1000)
    ensures l.quickParts[i].endOffsetMs == (i + 1) * (l.partDurationSec * 1000)
    ensures !l.stop.Running? && (i + 1) * PartDuration(l) <= l.stop.duration ==>
              i < |FinalParts(l, l.stop.duration)| && l.quickParts[i] == FinalParts(l, l.stop.duration)[i]
  {
    hide Reached, LivePart, QuickPartsOf, Unclaimed, Indices;
    ReachedInv(l);
    assert l.quickParts[i].index == l.quickParts[i].index && i + 1 < MAX_INT32;
    MultipleOrder(i + 1, |l.quickParts|, PartDuration(l));
    LivePartExact(l.roomID, l.recordingID, i + 1, l.partDurationSec);
    if !l.stop.Running? && (i + 1) * PartDuration(l) <= l.stop.duration {
      LivePartAgrees(l.roomID, l.recordingID, i + 1, l.stop.duration, l.partDurationSec);
    }
  }

  /** In every run the live parts are named after their positions, so their keys differ. */
  lemma LivePartsNamed(l: Live)
    requires Reached(l)
    ensures Named(l.quickParts, Keys.RecordingPrefix(l.roomID, l.recordingID) + "quick_access/part-", "Quick Access")
  {
    hide Reached, LivePart, NumberedKey, NumberedLabel;
    ReachedInv(l);
    forall i | 0 <= i < |l.quickParts|
      ensures NumberedKey(l.quickParts[i].key, Keys.RecordingPrefix(l.roomID, l.recordingID) + "quick_access/part-", i + 1)
              && NumberedLabel(l.quickParts[i].partLabel, "Quick Access", i + 1)
    {
      assert l.quickParts[i].index == l.quickParts[i].index && i + 1 < MAX_INT32;
      LivePartNamed(l.roomID, l.recordingID, i + 1, PartDuration(l));
    }
  }

  lemma {:induction false} UnclaimedSuffix(parts: seq<RecordingPart>, claimed: set<int>, m: nat)
    requires forall i :: 0 <= i < |parts| ==> (parts[i].index as int in claimed <==> i < m)
    ensures Unclaimed(parts, claimed) == if m <= |parts| then parts[m..] else []
  {
    if parts != [] {
      var n := |parts| - 1;
      assert forall i :: 0 <= i < n ==> parts[..n][i] == parts[i];
      UnclaimedSuffix(parts[..n], claimed, m);
      assert parts[n].index as int in claimed <==> n < m;
      DropLast(parts, m);
    }
  }

  lemma DropLast(parts: seq<RecordingPart>, m: nat)
    requires parts != []
    ensures m < |parts| ==> parts[m..] == parts[..|parts| - 1][m..] + [parts[|parts| - 1]]
    ensures m == |parts| ==> parts[m..] == []
    ensures m == |parts| - 1 ==> parts[..|parts| - 1][m..] == []
  {
  }

  lemma NumberedIndices(parts: seq<RecordingPart>)
    requires forall i :: 0 <= i < |parts| ==> parts[i].index == i + 1
    ensures forall k: int :: k in Indices(parts) <==> 1 <= k <= |parts|
  {
    forall k: int | 1 <= k <= |parts| ensures k in Indices(parts) {
      assert parts[k - 1].index as int == k;
    }
  }

  /** In every interleaving the final pass queues exactly the parts after the claimed ones. */
  lemma QueuedIsSuffix(l: Live)
    requires Reached(l) && l.stop.Done?
    ensures l.stop.snapshot <= l.quickParts
    ensures var m := |l.stop.snapshot|;
            l.stop.queued == if m <= |l.stop.finalParts| then l.stop.finalParts[m..] else []
  {
    hide Unclaimed, Indices, FinalParts, PartDuration, Tiles, PartsOf;
    ReachedInv(l);
    forall i | 0 <= i < |l.stop.snapshot| ensures l.stop.snapshot[i].index == i + 1 {
      LivePartsAgree(l, i);
    }
    NumberedIndices(l.stop.snapshot);
    assert l.stop.finalParts == QuickPartsOf(l.roomID, l.recordingID, l.stop.duration, l.partDurationSec) by {
      assert l.stop.finalParts == FinalParts(l, l.stop.duration);
      FinalPartsAre(l, l.stop.duration);
    }
    assert forall i :: 0 <= i < |l.stop.finalParts| ==> l.stop.finalParts[i].index == i + 1 by {
      FinalPartsNumbered(l.roomID, l.recordingID, l.stop.duration, l.partDurationSec);
    }
    UnclaimedSuffix(l.stop.finalParts, Indices(l.stop.snapshot), |l.stop.snapshot|);
  }

  lemma FinalPartsAre(l: Live, duration: Int64)
    ensures FinalParts(l, duration) == QuickPartsOf(l.roomID, l.recordingID, duration, l.partDurationSec)
  {
  }

  lemma FinalPartsNumbered(roomID: string, recordingID: string, duration: Int64, partDurationSec: Int32)
    requires duration < Horizon(partDurationSec)
    ensures var parts := QuickPartsOf(roomID, recordingID, duration, partDurationSec);
            forall i :: 0 <= i < |parts| ==> parts[i].index == i + 1
  {
    if duration > 0 && partDurationSec > 0 {
      hide PartsOf;
      HorizonTiles(duration, partDurationSec, QuickPrefix(roomID, recordingID), QUICK_LABEL);
    }
  }

  ghost predicate Covered(parts: seq<RecordingPart>, ms: int) {
    exists i :: 0 <= i < |parts| && parts[i].startOffsetMs <= ms < parts[i].endOffsetMs
  }

  lemma PartOfMillisecond(ms: int, partMs: int)
    requires ms >= 0 && partMs > 0
    ensures ms / partMs >= 0
    ensures (ms / partMs) * partMs <= ms < (ms / partMs + 1) * partMs
  {
    assert ms == (ms / partMs) * partMs + ms % partMs;
    OneMore(ms / partMs, partMs);
  }

  /** Whatever the interleaving, no millisecond of the recording is missed: each one lies in a part the
      timer claimed or in one the stop handler queued. */
  lemma NothingMissed(l: Live, ms: int)
    requires Reached(l) && l.stop.Done? && l.partDurationSec > 0
    requires 0 <= ms < l.stop.duration / MILLISECOND
    ensures Covered(l.quickParts + l.stop.queued, ms)
  {
    hide Reached, Unclaimed, Indices, LivePart, PartsOf, Tiles;
    ReachedInv(l);
    QueuedIsSuffix(l);
    var partMs, m := l.partDurationSec * 1000, |l.stop.snapshot|;
    var j := ms / partMs;
    PartOfMillisecond(ms, partMs);
    var all := l.quickParts + l.stop.queued;
    if j < |l.quickParts| {
      LivePartsAgree(l, j);
      assert all[j] == l.quickParts[j];
    } else {
      var parts := l.stop.finalParts;
      HorizonTiles(l.stop.duration, l.partDurationSec, QuickPrefix(l.roomID, l.recordingID), QUICK_LABEL);
      TileOf(parts, l.stop.duration, l.partDurationSec, ms);
      assert parts[j] == l.stop.queued[j - m] == all[|l.quickParts| + (j - m)];
    }
  }

  /** What the final pass of a reached state queues covers, with the claimed parts, the whole length. */
  lemma FinalPassCovers(l: Live)
    requires Reached(l) && l.stop.Cancelled? && l.partDurationSec > 0
    ensures var r := Next(l, Final);
            && r.stop.Done? && r.quickParts == l.quickParts
            && r.stop.queued == Unclaimed(FinalParts(l, l.stop.duration), Indices(l.quickParts))
            && forall ms :: 0 <= ms < l.stop.duration / MILLISECOND ==> Covered(l.quickParts + r.stop.queued, ms)
  {
    hide Reached, Unclaimed, Indices, FinalParts, Horizon, Covered;
    var r := Next(l, Final);
    assert l.elapsed < Horizon(l.partDurationSec) by { ReachedInv(l); }
    ReachedNext(l, Final);
    forall ms | 0 <= ms < l.stop.duration / MILLISECOND ensures Covered(l.quickParts + r.stop.queued, ms) {
      NothingMissed(r, ms);
    }
  }

  /** In a tiling, a millisecond lies in the part its quotient says. */
  lemma TileOf(parts: seq<RecordingPart>, duration: int, partDurationSec: int, ms: int)
    requires partDurationSec > 0 && Tiles(parts, duration, partDurationSec)
    requires 0 <= ms < duration / MILLISECOND
    ensures var j := ms / (partDurationSec * 1000);
            0 <= j < |parts| && parts[j].startOffsetMs <= ms < parts[j].endOffsetMs
  {
    var partMs := partDurationSec * 1000;
    var j := ms / partMs;
    PartOfMillisecond(ms, partMs);
    Scale(|parts|, partDurationSec);
    if j >= |parts| {
      MultipleOrder(|parts|, j, partMs);
    }
    if j < |parts| - 1 {
      assert parts[j].endOffsetMs == parts[j + 1].startOffsetMs;
    }
  }

  /** Claimed and queued parts together are the stop-time split itself, exactly when every claimed part
      ended within the measured length. */
  lemma SplitRestoredIff(l: Live)
    requires Reached(l) && l.stop.Done? && l.stop.duration > 0 && l.partDurationSec > 0
    ensures l.stop.snapshot + l.stop.queued == l.stop.finalParts
       <==> |l.stop.snapshot| * PartDuration(l) <= l.stop.duration
  {
    hide Reached, Unclaimed, Indices, LivePart, PartsOf, FinalParts, Tiles;
    ReachedInv(l);
    QueuedIsSuffix(l);
    var parts, m, pd := l.stop.finalParts, |l.stop.snapshot|, PartDuration(l);
    if m == 0 {
      assert l.stop.snapshot + l.stop.queued == l.stop.finalParts;
    } else if m * pd <= l.stop.duration {
      forall i | 0 <= i < m ensures i < |parts| && l.stop.snapshot[i] == parts[i] {
        MultipleOrder(i + 1, m, pd);
        LivePartsAgree(l, i);
      }
      LivePartsAgree(l, m - 1);
      assert parts == parts[..m] + parts[m..];
      assert l.stop.snapshot == parts[..m];
    } else if l.stop.snapshot + l.stop.queued == parts {
      LivePartsAgree(l, m - 1);
      assert l.stop.snapshot[m - 1] == l.quickParts[m - 1] == parts[m - 1];
      FinalPartsAre(l, l.stop.duration);
      HorizonTiles(l.stop.duration, l.partDurationSec, QuickPrefix(l.roomID, l.recordingID), QUICK_LABEL);
      Scale(m, l.partDurationSec);
      PartsEndInside(parts, l.stop.duration, l.partDurationSec, m - 1);
    }
  }

  lemma PartsEndInside(parts: seq<RecordingPart>, duration: int, partDurationSec: int, i: nat)
    requires partDurationSec > 0 && Tiles(parts, duration, partDurationSec) && i < |parts|
    ensures parts[i].endOffsetMs * MILLISECOND <= duration
  {
    if i < |parts| - 1 {
      assert parts[i].endOffsetMs == parts[i + 1].startOffsetMs;
      Scale(i + 1, partDurationSec);
      MultipleOrder(i + 1, |parts| - 1, partDurationSec * SECOND);
    }
  }

  /** A part is exported twice exactly when the timer claimed one that the final pass had already queued. */
  lemma ExportedTwiceIff(l: Live)
    requires Reached(l) && l.stop.Done?
    ensures Indices(l.quickParts) !! Indices(l.stop.queued)
       <==> |l.quickParts| == |l.stop.snapshot| || |l.stop.finalParts| <= |l.stop.snapshot|
  {
    hide Reached, Unclaimed, LivePart, PartsOf, FinalParts, QuickPartsOf;
    ReachedInv(l);
    QueuedIsSuffix(l);
    var q, n, m := |l.quickParts|, |l.stop.finalParts|, |l.stop.snapshot|;
    forall i | 0 <= i < q ensures l.quickParts[i].index == i + 1 {
      LivePartsAgree(l, i);
    }
    FinalPartsAre(l, l.stop.duration);
    FinalPartsNumbered(l.roomID, l.recordingID, l.stop.duration, l.partDurationSec);
    if m < n {
      assert forall i :: 0 <= i < |l.stop.queued| ==> l.stop.queued[i].index == m + i + 1;
      if m < q {
        assert l.quickParts[m].index == l.stop.queued[0].index;
        assert l.quickParts[m].index as int in Indices(l.quickParts) * Indices(l.stop.queued);
      }
    }
  }

  /** No part index is both claimed and queued, so far. */
  ghost predicate OnceEach(l: Live) {
    l.stop.Done? ==> Indices(l.quickParts) !! Indices(l.stop.queued)
  }

  /** The timer claims a part in this event, after the final pass. */
  predicate ClaimsLate(l: Live, e: Event) {
    e.Claim? && l.stop.Done? && l.timer.Waiting? && l.elapsed >= Wrap64(l.next * PartDuration(l))
  }

  /** The guard on one claim after the final pass: no part is exported twice by it, if and only if its
      index is beyond the final parts. */
  lemma ClaimSafeIff(l: Live)
    requires Reached(l) && OnceEach(l) && ClaimsLate(l, Claim)
    ensures OnceEach(Next(l, Claim)) <==> l.next > |l.stop.finalParts|
  {
    var r := Next(l, Claim);
    ReachedNext(l, Claim);
    ReachedInv(l);
    assert l.stop.Done? && r.stop == l.stop && |r.quickParts| == |l.quickParts| + 1 && l.next == |l.quickParts| + 1;
    assert |l.stop.snapshot| <= |l.quickParts|;
    hide *;
    ExportedTwiceIff(l);
    ExportedTwiceIff(r);
    OnceEachIs(l);
    OnceEachIs(r);
  }

  lemma OnceEachIs(l: Live)
    requires l.stop.Done?
    ensures OnceEach(l) <==> Indices(l.quickParts) !! Indices(l.stop.queued)
  {
  }

  lemma ReachedNext(l: Live, e: Event)
    requires Reached(l) && Next(l, e).elapsed < Horizon(l.partDurationSec)
    ensures Reached(Next(l, e))
  {
    hide LivePart, FinalParts, Unclaimed, Indices, Horizon, Wrap64, Wrap32, PartDuration;
    var l0 := Start(l.roomID, l.recordingID, l.partDurationSec);
    var events :| l == RunLive(l0, events);
    RunLiveConcat(l0, events, [e]);
    assert [e][1..] == [] && RunLive(l, [e]) == Next(l, e);
    assert Next(l, e).roomID == l.roomID && Next(l, e).recordingID == l.recordingID && Next(l, e).partDurationSec == l.partDurationSec;
  }

  /** Nothing else exports a part twice; the final pass queues what is not claimed. */
  lemma OthersKeepOnce(l: Live, e: Event)
    requires Reached(l) && OnceEach(l) && !ClaimsLate(l, e) && Next(l, e).elapsed < Horizon(l.partDurationSec)
    ensures OnceEach(Next(l, e))
  {
    hide Reached, LivePart, FinalParts, Unclaimed, Indices, Horizon, Wrap64, Wrap32, PartDuration;
    if e.Final? && l.stop.Cancelled? {
      ReachedNext(l, e);
      ExportedTwiceIff(Next(l, e));
    }
  }

  /** Every claim after the final pass is of a part beyond the final ones. */
  predicate ClaimsBeyond(l: Live, events: seq<Event>)
    decreases |events|
  {
    events == []
    || ((ClaimsLate(l, events[0]) ==> l.next > |l.stop.finalParts|) && ClaimsBeyond(Next(l, events[0]), events[1..]))
  }

  lemma {:induction false} OnceFromHere(l: Live, events: seq<Event>)
    requires Reached(l) && OnceEach(l) && RunLive(l, events).elapsed < Horizon(l.partDurationSec)
    ensures (forall k :: 0 <= k <= |events| ==> OnceEach(RunLive(l, events[..k]))) <==> ClaimsBeyond(l, events)
    decreases |events|
  {
    hide Reached, OnceEach, ClaimsLate, Next, Horizon;
    if events == [] {
      assert events[..0] == [];
    } else {
      var l' := Next(l, events[0]);
      NextWithin(l, events);
      ReachedNext(l, events[0]);
      if ClaimsLate(l, events[0]) {
        LateIsClaim(l, events[0]);
        ClaimSafeIff(l);
      } else {
        OthersKeepOnce(l, events[0]);
      }
      forall k | 0 <= k < |events| ensures RunLive(l, events[..k + 1]) == RunLive(l', events[1..][..k]) {
        assert events[..k + 1][1..] == events[1..][..k];
      }
      if OnceEach(l') {
        OnceFromHere(l', events[1..]);
        LivePrefixes(l, events);
      } else {
        assert events[1..][..0] == [];
        assert !OnceEach(RunLive(l, events[..0 + 1]));
      }
    }
  }

  lemma LateIsClaim(l: Live, e: Event)
    requires ClaimsLate(l, e)
    ensures e == Claim
  {
  }

  lemma NextWithin(l: Live, events: seq<Event>)
    requires Reached(l) && events != [] && RunLive(l, events).elapsed < Horizon(l.partDurationSec)
    ensures Next(l, events[0]).elapsed < Horizon(l.partDurationSec) && Next(l, events[0]).partDurationSec == l.partDurationSec
  {
    hide LivePart, FinalParts, Unclaimed, Indices, Horizon, Wrap64, Wrap32, PartDuration, LiveInv;
    ReachedInv(l);
    NextKeepsInv(l, events[0]);
    ElapsedGrows(Next(l, events[0]), events[1..]);
  }

  lemma LivePrefixes(l: Live, events: seq<Event>)
    requires events != [] && OnceEach(l)
    requires forall k :: 0 <= k < |events| ==> RunLive(l, events[..k + 1]) == RunLive(Next(l, events[0]), events[1..][..k])
    ensures (forall k :: 0 <= k <= |events| ==> OnceEach(RunLive(l, events[..k])))
       <==> (forall k :: 0 <= k <= |events[1..]| ==> OnceEach(RunLive(Next(l, events[0]), events[1..][..k])))
  {
    hide Next, OnceEach;
    var l', rest := Next(l, events[0]), events[1..];
    if forall k :: 0 <= k <= |events| ==> OnceEach(RunLive(l, events[..k])) {
      forall k | 0 <= k <= |rest| ensures OnceEach(RunLive(l', rest[..k])) {
        assert OnceEach(RunLive(l, events[..k + 1]));
      }
    }
    if forall k :: 0 <= k <= |rest| ==> OnceEach(RunLive(l', rest[..k])) {
      forall k | 0 <= k <= |events| ensures OnceEach(RunLive(l, events[..k])) {
        if k == 0 {
          assert events[..0] == [];
        } else {
          assert RunLive(l, events[..(k - 1) + 1]) == RunLive(l', rest[..k - 1]);
        }
      }
    }
  }

  /** For every run: no part is ever exported twice, if and only if the timer claims, after the final pass,
      only parts beyond the final ones. */
  lemma NeverTwiceIff(roomID: string, recordingID: string, partDurationSec: Int32, events: seq<Event>)
    requires RunLive(Start(roomID, recordingID, partDurationSec), events).elapsed < Horizon(partDurationSec)
    ensures var l := Start(roomID, recordingID, partDurationSec);
            (forall k :: 0 <= k <= |events| ==> OnceEach(RunLive(l, events[..k]))) <==> ClaimsBeyond(l, events)
  {
    hide Next, ClaimsBeyond, Horizon;
    var l := Start(roomID, recordingID, partDurationSec);
    assert RunLive(l, []) == l;
    assert 0 < Horizon(partDurationSec) by { HorizonPositive(partDurationSec); }
    assert Reached(l);
    hide RunLive, Reached;
    OnceFromHere(l, events);
  }

  lemma HorizonPositive(partDurationSec: Int32)
    ensures Horizon(partDurationSec) > 0
  {
    hide LastIndex;
    if partDurationSec > 0 {
      LastEnds(partDurationSec);
      MultipleOrder(1, LastIndex(partDurationSec), partDurationSec * SECOND);
    }
  }

  /** A boundary that falls between the measurement and the final pass: the first part is claimed a second
      long, though the recording was measured a nanosecond shorter. */
  lemma OverlapBreaksSplit(roomID: string, recordingID: string)
    ensures var l := RunLive(Start(roomID, recordingID, 1), [Tick(999_999_999), Measure, Tick(1), Claim, Cancel, Final]);
            l.stop.Done? && |l.stop.snapshot| == 1 && l.stop.snapshot + l.stop.queued != l.stop.finalParts
  {
    hide LivePart, FinalParts, Unclaimed, Indices, QuickPartsOf;
    var l0 := Start(roomID, recordingID, 1);
    var events := [Tick(999_999_999), Measure, Tick(1), Claim, Cancel, Final];
    var l := RunLive(l0, events);
    SixEvents(l0, Tick(999_999_999), Measure, Tick(1), Claim, Cancel, Final);
    assert l.stop.Done? && |l.stop.snapshot| == 1 && l.stop.duration == 999_999_999 && l.elapsed == SECOND;
    HorizonOfSeconds();
    assert Reached(l);
    SplitRestoredIff(l);
  }

  /** A claim after the final pass: index 1 is both claimed and queued. */
  lemma LateClaimExportsTwice(roomID: string, recordingID: string)
    ensures var l := RunLive(Start(roomID, recordingID, 1), [Tick(999_999_999), Measure, Cancel, Final, Tick(1), Claim]);
            l.stop.Done? && !(Indices(l.quickParts) !! Indices(l.stop.queued))
  {
    hide LivePart, Unclaimed, Indices, QuickPartsOf;
    var l0 := Start(roomID, recordingID, 1);
    var events := [Tick(999_999_999), Measure, Cancel, Final, Tick(1), Claim];
    var l := RunLive(l0, events);
    SixEvents(l0, Tick(999_999_999), Measure, Cancel, Final, Tick(1), Claim);
    SomePart(roomID, recordingID);
    assert l.stop.Done? && l.stop.snapshot == [] && |l.quickParts| == 1 && l.elapsed == SECOND;
    assert |l.stop.finalParts| >= 1;
    HorizonOfSeconds();
    assert Reached(l);
    ExportedTwiceIff(l);
  }

  lemma SomePart(roomID: string, recordingID: string)
    ensures |QuickPartsOf(roomID, recordingID, 999_999_999, 1)| >= 1
  {
    hide PartCount;
  }

  lemma HorizonOfSeconds()
    ensures Horizon(1) == MAX_INT32 * SECOND
  {
  }

  lemma SixEvents(l: Live, a: Event, b: Event, c: Event, d: Event, e: Event, f: Event)
    ensures RunLive(l, [a, b, c, d, e, f]) == Next(Next(Next(Next(Next(Next(l, a), b), c), d), e), f)
  {
    hide Next;
    var l2 := Next(Next(l, a), b);
    var l4 := Next(Next(l2, c), d);
    TwoEvents(l4, e, f, []);
    TwoEvents(l2, c, d, [e, f]);
    TwoEvents(l, a, b, [c, d, e, f]);
    assert [c, d] + [e, f] == [c, d, e, f] && [a, b] + [c, d, e, f] == [a, b, c, d, e, f] && [e, f] + [] == [e, f];
  }

  lemma TwoEvents(l: Live, a: Event, b: Event, rest: seq<Event>)
    ensures RunLive(l, [a, b] + rest) == RunLive(Next(Next(l, a), b), rest)
  {
    hide Next;
    assert ([a, b] + rest)[1..] == [b] + rest && ([b] + rest)[1..] == rest;
  }

  // ---------------------------------------------------------------- the end of the goroutine

  lemma {:induction false} ExitedStaysPut(l: Live, events: seq<Event>)
    requires l.timer.Exited?
    ensures RunLive(l, events).timer.Exited? && RunLive(l, events).quickParts == l.quickParts
    decreases |events|
  {
    hide FinalParts, Unclaimed, Indices;
    if events != [] {
      ExitedStaysPut(Next(l, events[0]), events[1..]);
    }
  }

  /** The stop handler measures the time since the start, as far as a duration can say it; once it has cancelled, a
      waiting goroutine can leave, and from then on nothing is claimed any more. */
  lemma CancelEnds(l: Live, events: seq<Event>)
    requires l.elapsed >= 0
    ensures l.stop.Running? ==> Next(l, Measure).stop == Measured(if l.elapsed > MAX_INT64 then MAX_INT64 else l.elapsed)
    ensures l.stop.Measured? ==> Next(l, Cancel).stop == Cancelled(l.stop.duration)
    ensures l.timer.Waiting? && l.stop.Cancelled? ==> RunLive(Next(l, Exit), events).quickParts == l.quickParts
  {
    hide RunLive;
    if l.timer.Waiting? && l.stop.Cancelled? {
      ExitedStaysPut(Next(l, Exit), events);
    }
  }

  // ---------------------------------------------------------------- no boundary during the stop

  /** While the stop handler works and the timer claims nothing. */
  ghost predicate Quiet(l: Live, r: Live) {
    && r.quickParts == l.quickParts && r.partDurationSec == l.partDurationSec
    && !r.stop.Running? && r.stop.duration == l.elapsed
    && (r.stop.Done? ==> r.stop.snapshot == l.quickParts)
  }

  lemma {:induction false} StaysQuiet(l: Live, r: Live, during: seq<Event>)
    requires Quiet(l, r) && Claim !in during
    ensures Quiet(l, RunLive(r, during))
    decreases |during|
  {
    hide FinalParts, Unclaimed, Indices;
    if during != [] {
      StaysQuiet(l, Next(r, during[0]), during[1..]);
    }
  }

  lemma {:induction false} RunLiveConcat(l: Live, first: seq<Event>, second: seq<Event>)
    ensures RunLive(l, first + second) == RunLive(RunLive(l, first), second)
    decreases |first|
  {
    if first == [] {
      assert first + second == second;
    } else {
      assert (first + second)[1..] == first[1..] + second;
      RunLiveConcat(Next(l, first[0]), first[1..], second);
    }
  }

  /** When no boundary is claimed from the moment the length is measured until the rest is queued, the
      final pass completes the split: claimed parts followed by queued ones are what buildParts makes. */
  lemma QuietStopCompletesSplit(before: seq<Event>, during: seq<Event>,
                                roomID: string, recordingID: string, partDurationSec: Int32)
    requires partDurationSec > 0 && Claim !in during
    requires var l := RunLive(Start(roomID, recordingID, partDurationSec), before);
             l.stop.Running? && 0 < l.elapsed
    requires var end := RunLive(Start(roomID, recordingID, partDurationSec), before + [Measure] + during);
             end.stop.Done? && end.elapsed < Horizon(partDurationSec)
    ensures var end := RunLive(Start(roomID, recordingID, partDurationSec), before + [Measure] + during);
            end.quickParts + end.stop.queued == QuickPartsOf(roomID, recordingID, end.stop.duration, partDurationSec)
  {
    hide FinalParts, QuickPartsOf, Unclaimed, Indices, LivePart, Wrap64;
    var start := Start(roomID, recordingID, partDurationSec);
    var l := RunLive(start, before);
    RunLiveConcat(start, before + [Measure], during);
    RunLiveConcat(start, before, [Measure]);
    var measured := RunLive(l, [Measure]);
    var end := RunLive(measured, during);
    RunKeepsNames(start, before);
    RunKeepsNames(l, [Measure]);
    RunKeepsNames(measured, during);
    RunKeepsInv(start, before);
    RunKeepsInv(l, [Measure]);
    ElapsedGrows(measured, during);
    assert measured == Next(l, Measure);
    StaysQuiet(l, measured, during);
    assert Reached(end);
    ReachedInv(end);
    ReachedInvBefore(l);
    SplitRestoredIff(end);
    FinalPartsAre(end, end.stop.duration);
  }

  lemma {:induction false} ElapsedGrows(l: Live, events: seq<Event>)
    requires LiveInv(l)
    ensures l.elapsed <= RunLive(l, events).elapsed
    decreases |events|
  {
    if events != [] {
      NextKeepsInv(l, events[0]);
      ElapsedGrows(Next(l, events[0]), events[1..]);
    }
  }

  lemma ReachedInvBefore(l: Live)
    requires LiveInv(l) && l.elapsed < Horizon(l.partDurationSec)
    ensures |l.quickParts| * PartDuration(l) <= l.elapsed
  {
  }
}
