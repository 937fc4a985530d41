/** What the operations of a track do, field by field and without the functions that compute them: the
    values after a write, a cut and a close, when a write rotates, how often age makes it rotate, and what
    the header of each segment says. */
module TrackLaws {
  import opened GoTypes
  import opened Brtp
  import opened TrackModel
  import opened TrackProofs
  import Keys

  // ---------------------------------------------------------------- values

  /** A new track has one segment, which starts with the track and is empty. */
  ghost predicate Begins(t: Track, cfg: TrackConfig, now: Time) {
    && t.cfg == cfg && !t.closed && t.startTime == t.lastPacket == t.segmentStart == now && t.endTime == None
    && t.packetCount == t.totalBytes == 0 && t.contents == [[]]
    && |t.segments| == 1 && t.segments[0].startTime == now && t.segments[0].endTime == None
  }

  /** A metadata entry carries the track's identity, its times and its segment list. */
  ghost predicate Describes(info: TrackInfo, t: Track) {
    info.cfg == t.cfg && info.startTime == t.startTime && info.endTime == t.endTime && info.segments == t.segments
  }

  /** The track ID of a recorded track: peer, type and producer. */
  ghost predicate IDSays(trackID: string, peer: string, kind: TrackType, producer: string) {
    && (kind == Audio ==> trackID == peer + "-audio-" + producer)
    && (kind == Video ==> trackID == peer + "-video-" + producer)
    && (kind == Screenshare ==> trackID == peer + "-screenshare-" + producer)
  }

  lemma TrackIDSays(peer: string, kind: TrackType, producer: string)
    ensures IDSays(Keys.TrackID(peer, TrackTypeName(kind), producer), peer, kind, producer)
  {
  }

  lemma StartLaw(cfg: TrackConfig, now: Time)
    ensures Begins(NewTrack(cfg, now), cfg, now)
  {
    hide Keys.SegmentFileName;
  }

  /** What every operation on an open track leaves alone. */
  ghost predicate SameTrack(t: Track, t': Track) {
    t'.cfg == t.cfg && t'.startTime == t.startTime
  }

  /** The first `n` segments and their packets are untouched. */
  ghost predicate SameUpTo(t: Track, t': Track, n: int) {
    && 0 <= n <= |t.segments| == |t.contents| && n <= |t'.segments| == |t'.contents|
    && t'.segments[..n] == t.segments[..n] && t'.contents[..n] == t.contents[..n]
  }

  /** The segment is young and has room: neither limit asks for a new one. A limit of zero or less is none. */
  predicate Fitting(t: Track, p: Packet, check: Time)
    requires |t.segments| == |t.contents| > 0
  {
    var last := |t.segments| - 1;
    && (t.cfg.segmentDuration <= 0 || check - t.segments[last].startTime < t.cfg.segmentDuration)
    && (t.cfg.segmentMaxBytes <= 0 || PayloadBytes(t.contents[last]) + |p.data| < t.cfg.segmentMaxBytes)
  }

  /** The current segment is finished at `end` with the packets it has, and a new one starts at `start`. */
  ghost predicate NextSegment(t: Track, t': Track, end: Time, start: Time, packets: seq<Packet>) {
    var n := |t.segments|;
    && n > 0 && SameUpTo(t, t', n - 1) && |t'.segments| == n + 1
    && t'.segments[n - 1].startTime == t.segments[n - 1].startTime && t'.segments[n - 1].endTime == Some(end)
    && t'.contents[n - 1] == t.contents[n - 1] && t'.contents[n] == packets
    && t'.segments[n].startTime == start == t'.segmentStart && t'.segments[n].endTime == None
  }

  /** A write to an open track counts the packet. It leaves the segment list as it is and adds the packet to
      the last segment, if and only if that is young and has room; else it ends the segment at one clock
      reading, starts the next at another, and puts the packet there. */
  ghost predicate Wrote(t: Track, t': Track, p: Packet, r: Reads) {
    var n := |t.segments|;
    && n == |t.contents| && n > 0
    && SameTrack(t, t') && !t'.closed && t'.endTime == t.endTime
    && t'.lastPacket == r.written && t'.packetCount == t.packetCount + 1 && t'.totalBytes == t.totalBytes + |p.data|
    && (t'.segments == t.segments <==> Fitting(t, p, r.check))
    && (Fitting(t, p, r.check) ==>
          SameUpTo(t, t', n - 1) && t'.contents[n - 1] == t.contents[n - 1] + [p] && t'.segmentStart == t.segmentStart)
    && (!Fitting(t, p, r.check) ==> NextSegment(t, t', r.cut, r.start, [p]))
  }

  /** An external cut of an open track ends the segment and starts the next at one moment: at the cutoff, or now
      when there is none, but not before the segment started. */
  ghost predicate WasCut(t: Track, t': Track, cutoff: Option<Time>, now: Time) {
    t.segments != [] &&
    var asked := if cutoff == None then now else cutoff.value;
    var begun := t.segments[|t.segments| - 1].startTime;
    var cut := if asked < begun then begun else asked;
    && SameTrack(t, t') && !t'.closed && t'.endTime == t.endTime
    && t'.lastPacket == t.lastPacket && t'.packetCount == t.packetCount && t'.totalBytes == t.totalBytes
    && NextSegment(t, t', cut, cut, [])
  }

  /** A close of an open track ends the last segment and the track at the given time, or, when there is none, at
      two clock readings of its own. */
  ghost predicate WasClosed(t: Track, t': Track, end: Option<Time>, closeNow: Time, endNow: Time) {
    var n := |t.segments|;
    && SameTrack(t, t') && t'.closed
    && t'.lastPacket == t.lastPacket && t'.packetCount == t.packetCount && t'.totalBytes == t.totalBytes
    && n > 0 && |t'.segments| == n && SameUpTo(t, t', n - 1)
    && t'.contents == t.contents && t'.segments[n - 1].startTime == t.segments[n - 1].startTime
    && t'.segments[n - 1].endTime == Some(if end == None then closeNow else end.value)
    && t'.endTime == Some(if end == None then endNow else end.value)
  }

  lemma WriteValues(t: Track, p: Packet, r: Reads)
    requires TrackInv(t)
    ensures if t.closed then TrackModel.WritePacket(t, p, r) == (t, false) else Wrote(t, TrackModel.WritePacket(t, p, r).0, p, r) && TrackModel.WritePacket(t, p, r).1
  {
    hide Keys.SegmentFileName, FileOf, HeaderAt, Flatten, PayloadBytes;
    assert [] + [p] == [p];
    assert !t.closed ==> (Fitting(t, p, r.check) <==> !(TooOld(t, r.check) || TooBig(t, |p.data|)));
  }

  lemma CutValues(t: Track, cutoff: Option<Time>, now: Time)
    requires TrackInv(t)
    ensures if t.closed then TrackModel.RotateAt(t, cutoff, now) == t else WasCut(t, TrackModel.RotateAt(t, cutoff, now), cutoff, now)
  {
    hide FileOf, HeaderAt, Flatten, PayloadBytes, Keys.SegmentFileName;
  }

  lemma CloseValues(t: Track, end: Option<Time>, closeNow: Time, endNow: Time)
    requires TrackInv(t)
    ensures if t.closed then TrackModel.CloseAt(t, end, closeNow, endNow) == t else WasClosed(t, TrackModel.CloseAt(t, end, closeNow, endNow), end, closeNow, endNow)
  {
    hide FileOf, HeaderAt, Flatten, PayloadBytes, Keys.SegmentFileName;
  }

  /** So it is in every reached open track. */
  lemma WriteLaw(cfg: TrackConfig, start: Time, ops: seq<Op>, p: Packet, r: Reads)
    requires !Reached(cfg, start, ops).closed
    ensures Wrote(Reached(cfg, start, ops), Reached(cfg, start, ops + [Write(p, r)]), p, r)
  {
    ReachedNext(cfg, start, ops, Write(p, r));
    hide Reached, TrackInv, Wrote;
    WriteValues(Reached(cfg, start, ops), p, r);
  }

  lemma CutLaw(cfg: TrackConfig, start: Time, ops: seq<Op>, cutoff: Option<Time>, now: Time)
    requires !Reached(cfg, start, ops).closed
    ensures WasCut(Reached(cfg, start, ops), Reached(cfg, start, ops + [Rotate(cutoff, now)]), cutoff, now)
  {
    ReachedNext(cfg, start, ops, Rotate(cutoff, now));
    hide Reached, TrackInv, WasCut;
    CutValues(Reached(cfg, start, ops), cutoff, now);
  }

  lemma CloseLaw(cfg: TrackConfig, start: Time, ops: seq<Op>, end: Option<Time>, closeNow: Time, endNow: Time)
    requires !Reached(cfg, start, ops).closed
    ensures WasClosed(Reached(cfg, start, ops), Reached(cfg, start, ops + [Close(end, closeNow, endNow)]), end, closeNow, endNow)
  {
    ReachedNext(cfg, start, ops, Close(end, closeNow, endNow));
    hide Reached, TrackInv, WasClosed;
    CloseValues(Reached(cfg, start, ops), end, closeNow, endNow);
  }

  // ---------------------------------------------------------------- rotations by age

  /** How often a write starts a new segment although the size limit did not ask for it. */
  function UnaskedRotations(t: Track, ops: seq<Op>): nat
    requires t.Shaped()
    decreases |ops|
  {
    if ops == [] then 0
    else
      var t' := Apply(t, ops[0]);
      (if ops[0].Write? && |t'.segments| > |t.segments|
          && (t.cfg.segmentMaxBytes <= 0 || t.segmentBytes + |ops[0].packet.data| < t.cfg.segmentMaxBytes) then 1 else 0)
      + UnaskedRotations(t', ops[1..])
  }

  /** The last reading of a run. */
  function ClockAfter(now: Time, ops: seq<Op>): Time
    decreases |ops|
  {
    if ops == [] then now
    else ClockAfter(match ops[0]
                    case Write(_, r) => r.written
                    case Rotate(_, n) => n
                    case Close(_, _, m) => m, ops[1..])
  }

  /** The start of the current segment, or the present when a cutoff has put it into the future. */
  function Anchor(t: Track, now: Time): Time {
    if t.segmentStart < now then t.segmentStart else now
  }

  lemma OneAgeStep(t: Track, now: Time, op: Op)
    requires TrackInv(t) && ClockRuns(now, [op])
    ensures var t', now' := Apply(t, op), ClockAfter(now, [op]);
            var unasked := UnaskedRotations(t, [op]);
            && unasked <= 1 && now <= now' && Anchor(t', now') >= Anchor(t, now)
            && (unasked == 1 ==> t.cfg.segmentDuration > 0 && Anchor(t', now') >= Anchor(t, now) + t.cfg.segmentDuration)
  {
    hide Keys.SegmentFileName, FileOf, HeaderAt, Flatten, PayloadBytes;
    assert [op][1..] == [];
  }

  lemma SplitUnasked(t: Track, now: Time, ops: seq<Op>)
    requires t.Shaped() && ops != []
    ensures UnaskedRotations(t, ops) == UnaskedRotations(t, [ops[0]]) + UnaskedRotations(Apply(t, ops[0]), ops[1..])
    ensures ClockAfter(now, ops) == ClockAfter(ClockAfter(now, [ops[0]]), ops[1..])
    ensures ClockRuns(now, ops) ==> ClockRuns(now, [ops[0]]) && ClockRuns(ClockAfter(now, [ops[0]]), ops[1..])
  {
    hide Apply;
    assert [ops[0]][1..] == [];
    assert UnaskedRotations(Apply(t, ops[0]), []) == 0;
  }

  lemma {:induction false} AgePotential(t: Track, now: Time, ops: seq<Op>)
    requires TrackInv(t) && ClockRuns(now, ops)
    ensures t.cfg.segmentDuration <= 0 ==> UnaskedRotations(t, ops) == 0
    ensures UnaskedRotations(t, ops) * t.cfg.segmentDuration
            <= Anchor(Run(t, ops), ClockAfter(now, ops)) - Anchor(t, now)
    decreases |ops|
  {
    hide TrackInv, Apply, Anchor;
    if ops != [] {
      SplitUnasked(t, now, ops);
      OneAgeStep(t, now, ops[0]);
      ApplyInv(t, ops[0]);
      hide UnaskedRotations, ClockAfter, ClockRuns;
      var rest := UnaskedRotations(Apply(t, ops[0]), ops[1..]);
      AgePotential(Apply(t, ops[0]), ClockAfter(now, [ops[0]]), ops[1..]);
      OneMore(rest, t.cfg.segmentDuration);
    }
  }

  /** For every run with a clock that does not run backwards, whatever cuts and size rotations are mixed in: the
      rotations that the size limit did not ask for, times the segment duration, never exceed the time
      elapsed; without an age limit there are none. */
  lemma AgeRotationBound(cfg: TrackConfig, start: Time, ops: seq<Op>)
    requires ClockRuns(start, ops)
    ensures cfg.segmentDuration <= 0 ==> UnaskedRotations(NewTrack(cfg, start), ops) == 0
    ensures UnaskedRotations(NewTrack(cfg, start), ops) * cfg.segmentDuration <= ClockAfter(start, ops) - start
  {
    NewTrackInv(cfg, start);
    StartLaw(cfg, start);
    AgePotential(NewTrack(cfg, start), start, ops);
  }

  // ---------------------------------------------------------------- what the headers say

  /** In every reached track, the file of every segment with packets names the track's source, payload type and
      codec, and the start that the segment list gives. */
  lemma HeaderLaw(cfg: TrackConfig, start: Time, ops: seq<Op>, i: nat)
    requires var t := Reached(cfg, start, ops); i < |t.segments| && t.contents[i] != []
    ensures var t := Reached(cfg, start, ops);
            StoredObject(t, i).Some?
            && HeaderSays(StoredObject(t, i).value, cfg.ssrc, cfg.payloadType, cfg.codec, t.segments[i].startTime)
  {
    NewTrackInv(cfg, start);
    RunInv(NewTrack(cfg, start), ops);
    StartLaw(cfg, start);
    SegmentHeader(Reached(cfg, start, ops), i);
  }

  lemma SegmentHeader(t: Track, i: nat)
    requires t.Shaped() && i < |t.segments| && t.contents[i] != []
    ensures StoredObject(t, i).Some?
            && HeaderSays(StoredObject(t, i).value, t.cfg.ssrc, t.cfg.payloadType, t.cfg.codec, t.segments[i].startTime)
  {
    hide NewHeader, HeaderSays, FileOf;
    NewHeaderSays(t.cfg.ssrc, t.cfg.payloadType, t.cfg.codec, t.segments[i].startTime, t.contents[i]);
  }
}
