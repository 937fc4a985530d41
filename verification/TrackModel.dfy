/** The abstract track: what a TrackWriter's operations do to its counters, its segment list and the
    packets each segment holds. TrackWriter.dfy proves the imperative code against it. */
module TrackModel {
  import opened GoTypes
  import opened Brtp
  import Keys

  type Time = int // nanoseconds

  datatype TrackType = Unspecified | Audio | Video | Screenshare

  function TrackTypeName(t: TrackType): string {
    match t
    case Audio => "audio"
    case Video => "video"
    case Screenshare => "screenshare"
    case Unspecified => "unknown"
  }

  datatype TrackConfig = TrackConfig(
    trackID: string,
    producerID: string,
    peerID: string,
    trackType: TrackType,
    codec: Bytes,
    ssrc: UInt32,
    payloadType: Byte,
    segmentDuration: int,
    segmentMaxBytes: int)

  datatype SegmentInfo = SegmentInfo(
    fileName: string, startTime: Time, endTime: Option<Time>, bytes: int, packetCount: int)

  datatype TrackInfo = TrackInfo(
    cfg: TrackConfig, startTime: Time, endTime: Option<Time>, segments: seq<SegmentInfo>)

  datatype Track = Track(
    cfg: TrackConfig,
    segments: seq<SegmentInfo>,
    contents: seq<seq<Packet>>, // the packets accepted into each segment
    segmentStart: Time,
    segmentBytes: int,
    segmentPackets: int,
    startTime: Time,
    lastPacket: Time,
    endTime: Option<Time>,
    packetCount: int,
    totalBytes: int,
    closed: bool)
  {
    ghost predicate Shaped() {
      |segments| == |contents| && segments != []
    }

    function Info(): TrackInfo {
      TrackInfo(cfg, startTime, endTime, segments)
    }
  }

  /** The clock readings of one WritePacket call, in the order the code takes them. */
  datatype Reads = Reads(check: Time, cut: Time, start: Time, written: Time)

  /** The header of a segment that starts at `start`. */
  function HeaderAt(cfg: TrackConfig, start: Time): (h: FileHeader)
    ensures h.Shaped() && h.magic == MAGIC && h.version == FORMAT_VERSION
  {
    NewHeader(cfg.ssrc, cfg.payloadType, cfg.codec, Wrap64(start / 1_000_000))
  }

  function SegmentFile(t: Track, i: nat): Bytes
    requires t.Shaped() && i < |t.segments|
  {
    FileOf(HeaderAt(t.cfg, t.segments[i].startTime), t.contents[i])
  }

  // ---------------------------------------------------------------- operations

  function StartSegment(t: Track, now: Time): (t': Track)
    requires |t.segments| == |t.contents|
    ensures t'.Shaped()
  {
    t.(segments := t.segments + [SegmentInfo(Keys.SegmentFileName(t.cfg.trackID, |t.segments| + 1), now, None, 0, 0)],
       contents := t.contents + [[]],
       segmentStart := now, segmentBytes := 0, segmentPackets := 0)
  }

  function NewTrack(cfg: TrackConfig, now: Time): (t: Track)
    ensures t.Shaped()
  {
    StartSegment(Track(cfg, [], [], now, 0, 0, now, now, None, 0, 0, false), now)
  }

  function CloseSegment(t: Track, end: Time): (t': Track)
    requires t.Shaped()
    ensures t'.Shaped()
  {
    var last := |t.segments| - 1;
    var bytes := |SegmentFile(t, last)|;
    t.(segmentBytes := bytes,
       segments := t.segments[last := t.segments[last].(endTime := Some(end), bytes := bytes, packetCount := t.segmentPackets)])
  }

  predicate TooOld(t: Track, check: Time) {
    t.cfg.segmentDuration > 0 && check - t.segmentStart >= t.cfg.segmentDuration
  }

  predicate TooBig(t: Track, next: nat) {
    t.cfg.segmentMaxBytes > 0 && t.segmentBytes + next >= t.cfg.segmentMaxBytes
  }

  function AppendPacket(t: Track, p: Packet, written: Time): (t': Track)
    requires t.Shaped()
    ensures t'.Shaped()
  {
    var last := |t.contents| - 1;
    t.(contents := t.contents[last := t.contents[last] + [p]],
       lastPacket := written,
       packetCount := t.packetCount + 1, totalBytes := t.totalBytes + |p.data|,
       segmentPackets := t.segmentPackets + 1, segmentBytes := t.segmentBytes + |p.data|)
  }

  /** The second component is whether the packet was accepted. */
  function WritePacket(t: Track, p: Packet, r: Reads): (Track, bool)
    requires t.Shaped()
  {
    if t.closed then (t, false)
    else
      var open := if TooOld(t, r.check) || TooBig(t, |p.data|)
                  then StartSegment(CloseSegment(t, r.cut), r.start) else t;
      (AppendPacket(open, p, r.written), true)
  }

  /** No cutoff means the current time; a cutoff before the segment is moved to its start. */
  function CutPoint(t: Track, cutoff: Option<Time>, now: Time): Time {
    var cut := if cutoff.Some? then cutoff.value else now;
    if cut < t.segmentStart then t.segmentStart else cut
  }

  function RotateAt(t: Track, cutoff: Option<Time>, now: Time): (t': Track)
    requires t.Shaped()
    ensures t'.Shaped()
  {
    if t.closed then t
    else var cut := CutPoint(t, cutoff, now); StartSegment(CloseSegment(t, cut), cut)
  }

  /** `closeNow` and `endNow` are the two clock readings taken when no end time is given. */
  function CloseAt(t: Track, end: Option<Time>, closeNow: Time, endNow: Time): (t': Track)
    requires t.Shaped()
    ensures t'.Shaped()
  {
    if t.closed then t
    else
      CloseSegment(t.(closed := true), if end.Some? then end.value else closeNow)
        .(endTime := Some(if end.Some? then end.value else endNow))
  }

  // ---------------------------------------------------------------- runs

  datatype Op =
    | Write(packet: Packet, clock: Reads)
    | Rotate(cutoff: Option<Time>, now: Time)
    | Close(end: Option<Time>, closeNow: Time, endNow: Time)

  function Apply(t: Track, op: Op): (t': Track)
    requires t.Shaped()
    ensures t'.Shaped()
  {
    match op
    case Write(p, r) => WritePacket(t, p, r).0
    case Rotate(cutoff, now) => RotateAt(t, cutoff, now)
    case Close(end, closeNow, endNow) => CloseAt(t, end, closeNow, endNow)
  }

  function Run(t: Track, ops: seq<Op>): (t': Track)
    requires t.Shaped()
    ensures t'.Shaped()
    decreases |ops|
  {
    if ops == [] then t else Run(Apply(t, ops[0]), ops[1..])
  }

  /** The packets a caller was told are recorded: every write before the first close. */
  function AcceptedPackets(ops: seq<Op>): seq<Packet> {
    if ops == [] || ops[0].Close? then []
    else (if ops[0].Write? then [ops[0].packet] else []) + AcceptedPackets(ops[1..])
  }

  function Flatten(contents: seq<seq<Packet>>): seq<Packet> {
    if contents == [] then [] else Flatten(contents[..|contents| - 1]) + contents[|contents| - 1]
  }

  function SumBytes(segments: seq<SegmentInfo>): int {
    if segments == [] then 0 else SumBytes(segments[..|segments| - 1]) + segments[|segments| - 1].bytes
  }

  function SumPackets(segments: seq<SegmentInfo>): int {
    if segments == [] then 0 else SumPackets(segments[..|segments| - 1]) + segments[|segments| - 1].packetCount
  }

  function NonEmpty(contents: seq<seq<Packet>>): nat {
    if contents == [] then 0
    else NonEmpty(contents[..|contents| - 1]) + if contents[|contents| - 1] == [] then 0 else 1
  }

  /** How many writes of a run find the current segment full. */
  function SizeRotations(t: Track, ops: seq<Op>): nat
    requires t.Shaped()
    decreases |ops|
  {
    if ops == [] then 0
    else (if ops[0].Write? && !t.closed && TooBig(t, |ops[0].packet.data|) then 1 else 0)
         + SizeRotations(Apply(t, ops[0]), ops[1..])
  }

  // ---------------------------------------------------------------- invariant

  /** A finished segment reports the size of its file and the number of packets in it. */
  ghost predicate Finished(t: Track, i: nat)
    requires t.Shaped() && i < |t.segments|
  {
    && t.segments[i].endTime.Some?
    && t.segments[i].bytes == |SegmentFile(t, i)|
    && t.segments[i].packetCount == |t.contents[i]|
  }

  ghost predicate TrackInv(t: Track): (inv: bool)
    ensures inv ==> t.Shaped()
  {
    && t.Shaped()
    && (forall i :: 0 <= i < |t.segments| ==> t.segments[i].fileName == Keys.SegmentFileName(t.cfg.trackID, i + 1))
    && (forall i :: 0 <= i < |t.segments| - 1 ==> Finished(t, i))
    && t.packetCount == |Flatten(t.contents)|
    && t.totalBytes == PayloadBytes(Flatten(t.contents))
    && var last := |t.segments| - 1;
       && t.segments[last].startTime == t.segmentStart
       && t.segmentPackets == |t.contents[last]|
       && if t.closed then Finished(t, last) && t.endTime.Some?
          else t.segments[last].endTime == None && t.segments[last].bytes == t.segments[last].packetCount == 0
               && t.segmentBytes == PayloadBytes(t.contents[last])
  }
}
