/** What every run of a track guarantees: nothing lost, exact accounting, bounded rotation,
    ordered segments, and storage that reads back as what was accepted. */
module TrackProofs {
  import opened GoTypes
  import opened Brtp
  import opened TrackModel
  import Keys

  // ---------------------------------------------------------------- sequences of segments

  lemma FlattenAppendLast(cs: seq<seq<Packet>>, p: Packet)
    requires cs != []
    ensures var last := |cs| - 1;
            Flatten(cs[last := cs[last] + [p]]) == Flatten(cs) + [p]
  {
    var last := |cs| - 1;
    assert cs[last := cs[last] + [p]][..last] == cs[..last];
  }

  lemma FlattenOpen(cs: seq<seq<Packet>>)
    ensures Flatten(cs + [[]]) == Flatten(cs)
  {
    assert (cs + [[]])[..|cs|] == cs;
  }

  lemma {:induction false} PayloadConcat(ps: seq<Packet>, qs: seq<Packet>)
    ensures PayloadBytes(ps + qs) == PayloadBytes(ps) + PayloadBytes(qs)
  {
    if qs == [] {
      assert ps + qs == ps;
    } else {
      var last := |qs| - 1;
      assert (ps + qs)[..|ps + qs| - 1] == ps + qs[..last];
      PayloadConcat(ps, qs[..last]);
    }
  }

  lemma PayloadAppend(ps: seq<Packet>, p: Packet)
    ensures PayloadBytes(ps + [p]) == PayloadBytes(ps) + |p.data|
  {
    assert (ps + [p])[..|ps|] == ps;
  }

  // ---------------------------------------------------------------- the invariant of a run

  /** Between closing one segment and starting the next. */
  ghost predicate AllFinished(t: Track) {
    && t.Shaped() && !t.closed
    && (forall i :: 0 <= i < |t.segments| ==> t.segments[i].fileName == Keys.SegmentFileName(t.cfg.trackID, i + 1))
    && (forall i :: 0 <= i < |t.segments| ==> Finished(t, i))
    && t.packetCount == |Flatten(t.contents)|
    && t.totalBytes == PayloadBytes(Flatten(t.contents))
  }

  lemma CloseSegmentFinishes(t: Track, end: Time)
    requires TrackInv(t) && !t.closed
    ensures AllFinished(CloseSegment(t, end))
    ensures CloseSegment(t, end).contents == t.contents
  {
    hide Keys.SegmentFileName, FileOf, HeaderAt, Flatten, PayloadBytes;
    var t' := CloseSegment(t, end);
    forall i | 0 <= i < |t'.segments| ensures Finished(t', i) {
      assert SegmentFile(t', i) == SegmentFile(t, i);
      assert i < |t.segments| - 1 ==> Finished(t, i);
    }
  }

  lemma StartSegmentOpens(t: Track, now: Time)
    requires AllFinished(t)
    ensures TrackInv(StartSegment(t, now))
    ensures Flatten(StartSegment(t, now).contents) == Flatten(t.contents)
  {
    hide Keys.SegmentFileName, FileOf, HeaderAt, Flatten;
    var t' := StartSegment(t, now);
    FlattenOpen(t.contents);
    forall i | 0 <= i < |t'.segments| - 1 ensures Finished(t', i) {
      assert Finished(t, i);
      assert SegmentFile(t', i) == SegmentFile(t, i);
    }
  }

  lemma NewTrackInv(cfg: TrackConfig, now: Time)
    ensures TrackInv(NewTrack(cfg, now)) && Flatten(NewTrack(cfg, now).contents) == []
  {
    FlattenOpen([]);
    assert Flatten([]) == [] && PayloadBytes([]) == 0;
  }

  lemma AppendPacketInv(t: Track, p: Packet, written: Time)
    requires TrackInv(t) && !t.closed
    ensures TrackInv(AppendPacket(t, p, written))
    ensures Flatten(AppendPacket(t, p, written).contents) == Flatten(t.contents) + [p]
  {
    hide Keys.SegmentFileName, FileOf, HeaderAt, Flatten, PayloadBytes;
    var t' := AppendPacket(t, p, written);
    FlattenAppendLast(t.contents, p);
    PayloadAppend(Flatten(t.contents), p);
    PayloadAppend(t.contents[|t.contents| - 1], p);
    forall i | 0 <= i < |t'.segments| - 1 ensures Finished(t', i) {
      assert Finished(t, i);
      assert SegmentFile(t', i) == SegmentFile(t, i);
    }
  }

  lemma WritePacketInv(t: Track, p: Packet, r: Reads)
    requires TrackInv(t)
    ensures var (t', ok) := WritePacket(t, p, r);
            && TrackInv(t') && ok == !t.closed && t'.closed == t.closed && t'.cfg == t.cfg
            && Flatten(t'.contents) == Flatten(t.contents) + (if ok then [p] else [])
            && (!ok ==> t' == t)
  {
    hide TrackInv, AllFinished, Flatten;
    if t.closed {
      assert Flatten(t.contents) + [] == Flatten(t.contents);
    } else if TooOld(t, r.check) || TooBig(t, |p.data|) {
      var cut := CloseSegment(t, r.cut);
      CloseSegmentFinishes(t, r.cut);
      StartSegmentOpens(cut, r.start);
      AppendPacketInv(StartSegment(cut, r.start), p, r.written);
    } else {
      AppendPacketInv(t, p, r.written);
    }
  }

  lemma RotateAtInv(t: Track, cutoff: Option<Time>, now: Time)
    requires TrackInv(t)
    ensures var t' := RotateAt(t, cutoff, now);
            && TrackInv(t') && t'.closed == t.closed && t'.cfg == t.cfg
            && Flatten(t'.contents) == Flatten(t.contents)
            && t'.packetCount == t.packetCount && t'.totalBytes == t.totalBytes
            && (t.closed ==> t' == t)
  {
    hide TrackInv, AllFinished, Flatten;
    if !t.closed {
      var cut := CutPoint(t, cutoff, now);
      CloseSegmentFinishes(t, cut);
      StartSegmentOpens(CloseSegment(t, cut), cut);
    }
  }

  lemma FinishedTransfers(t: Track, t': Track)
    requires AllFinished(t) && t' == t.(closed := true, endTime := t'.endTime)
    ensures forall i :: 0 <= i < |t'.segments| ==> Finished(t', i)
  {
    hide Keys.SegmentFileName, FileOf, HeaderAt, Flatten, PayloadBytes;
    forall i | 0 <= i < |t'.segments| ensures Finished(t', i) {
      assert Finished(t, i);
      assert SegmentFile(t', i) == SegmentFile(t, i);
    }
  }

  lemma CloseAtInv(t: Track, end: Option<Time>, closeNow: Time, endNow: Time)
    requires TrackInv(t)
    ensures var t' := CloseAt(t, end, closeNow, endNow);
            && TrackInv(t') && t'.closed && t'.cfg == t.cfg && t'.contents == t.contents
            && t'.packetCount == t.packetCount && t'.totalBytes == t.totalBytes
            && (t.closed ==> t' == t)
  {
    if !t.closed {
      hide Keys.SegmentFileName, FileOf, HeaderAt, Flatten, PayloadBytes;
      var stop := if end.Some? then end.value else closeNow;
      CloseSegmentFinishes(t, stop);
      var done := CloseSegment(t, stop);
      var t' := CloseAt(t, end, closeNow, endNow);
      assert SegmentFile(t.(closed := true), |t.segments| - 1) == SegmentFile(t, |t.segments| - 1);
      assert t' == done.(closed := true, endTime := t'.endTime);
      FinishedTransfers(done, t');
    }
  }

  lemma ApplyInv(t: Track, op: Op)
    requires TrackInv(t)
    ensures TrackInv(Apply(t, op)) && Apply(t, op).cfg == t.cfg
    ensures Apply(t, op).closed <==> t.closed || op.Close?
    ensures t.closed ==> Apply(t, op) == t
    ensures Flatten(Apply(t, op).contents)
            == Flatten(t.contents) + (if op.Write? && !t.closed then [op.packet] else [])
  {
    hide TrackInv, Flatten, WritePacket, RotateAt, CloseAt;
    match op
    case Write(p, r) => WritePacketInv(t, p, r);
    case Rotate(cutoff, now) =>
      RotateAtInv(t, cutoff, now);
      assert Flatten(t.contents) + [] == Flatten(t.contents);
    case Close(end, closeNow, endNow) =>
      CloseAtInv(t, end, closeNow, endNow);
      assert Flatten(t.contents) + [] == Flatten(t.contents);
  }

  /** No packet enters a closed track and no segment is opened on it. */
  lemma {:induction false} ClosedIsFinal(t: Track, ops: seq<Op>)
    requires TrackInv(t) && t.closed
    ensures Run(t, ops) == t
    decreases |ops|
  {
    if ops != [] {
      ApplyInv(t, ops[0]);
      ClosedIsFinal(t, ops[1..]);
    }
  }

  predicate Closes(ops: seq<Op>) {
    ops != [] && (ops[0].Close? || Closes(ops[1..]))
  }

  /** Conservation over any run: the segments hold exactly the accepted packets, in order. */
  lemma {:induction false} RunConserves(t: Track, ops: seq<Op>)
    requires TrackInv(t) && !t.closed
    ensures TrackInv(Run(t, ops)) && Run(t, ops).cfg == t.cfg
    ensures Flatten(Run(t, ops).contents) == Flatten(t.contents) + AcceptedPackets(ops)
    ensures Run(t, ops).closed <==> Closes(ops)
    decreases |ops|
  {
    hide TrackInv, Flatten, Apply;
    if ops != [] {
      ApplyInv(t, ops[0]);
      var t' := Apply(t, ops[0]);
      if ops[0].Close? {
        ClosedIsFinal(t', ops[1..]);
      } else {
        RunConserves(t', ops[1..]);
        var now := if ops[0].Write? then [ops[0].packet] else [];
        assert Flatten(t.contents) + now + AcceptedPackets(ops[1..]) == Flatten(t.contents) + (now + AcceptedPackets(ops[1..]));
      }
    }
  }

  // ---------------------------------------------------------------- accounting

  lemma SumBytesNext(segments: seq<SegmentInfo>, j: nat)
    requires j < |segments|
    ensures SumBytes(segments[..j + 1]) == SumBytes(segments[..j]) + segments[j].bytes
  {
    assert segments[..j + 1][..j] == segments[..j];
  }

  lemma {:induction false} SegmentSums(t: Track, k: nat)
    requires t.Shaped() && k <= |t.segments|
    requires forall i :: 0 <= i < k ==> Finished(t, i)
    ensures SumPackets(t.segments[..k]) == |Flatten(t.contents[..k])|
    ensures SumBytes(t.segments[..k]) ==
            PayloadBytes(Flatten(t.contents[..k])) + RECORD_OVERHEAD * |Flatten(t.contents[..k])|
            + HEADER_SIZE * NonEmpty(t.contents[..k])
  {
    hide FileOf, HeaderAt, PayloadBytes;
    if k == 0 {
      PayloadAppend([], Packet([], 0));
      assert PayloadBytes([]) == 0 by { EmptyPayload(); }
    } else {
      SegmentSums(t, k - 1);
      assert t.segments[..k][..k - 1] == t.segments[..k - 1];
      assert t.contents[..k][..k - 1] == t.contents[..k - 1];
      assert Finished(t, k - 1);
      FileSize(HeaderAt(t.cfg, t.segments[k - 1].startTime), t.contents[k - 1]);
      PayloadConcat(Flatten(t.contents[..k - 1]), t.contents[k - 1]);
      EmptyPayload();
    }
  }

  lemma EmptyPayload()
    ensures PayloadBytes([]) == 0
  {
  }

  /** Exact accounting of a closed track, across the three layers that count: the track's packet and
      payload counters, the per-segment counters, and the bytes that passed the counting writer. */
  lemma ExactAccounting(t: Track)
    requires TrackInv(t) && t.closed
    ensures SumPackets(t.segments) == t.packetCount
    ensures SumBytes(t.segments)
            == t.totalBytes + RECORD_OVERHEAD * t.packetCount + HEADER_SIZE * NonEmpty(t.contents)
    ensures forall i :: 0 <= i < |t.segments| ==>
              t.segments[i].packetCount == |t.contents[i]| &&
              t.segments[i].bytes == if t.contents[i] == [] then 0
                                     else HEADER_SIZE + RECORD_OVERHEAD * |t.contents[i]| + PayloadBytes(t.contents[i])
  {
    hide FileOf, HeaderAt, PayloadBytes, Flatten;
    assert forall i :: 0 <= i < |t.segments| ==> Finished(t, i);
    SegmentSums(t, |t.segments|);
    assert t.segments[..|t.segments|] == t.segments && t.contents[..|t.contents|] == t.contents;
    forall i | 0 <= i < |t.segments|
      ensures t.segments[i].packetCount == |t.contents[i]|
      ensures t.segments[i].bytes == if t.contents[i] == [] then 0
                                     else HEADER_SIZE + RECORD_OVERHEAD * |t.contents[i]| + PayloadBytes(t.contents[i])
    {
      assert Finished(t, i);
      FileSize(HeaderAt(t.cfg, t.segments[i].startTime), t.contents[i]);
    }
  }

  // ---------------------------------------------------------------- rotation bounds

  function OpenBytes(t: Track): int {
    if t.closed then 0 else t.segmentBytes
  }

  /** What one operation adds to the account: a size rotation spends `segmentMaxBytes`, a payload
      byte earns two, and the bytes of the open segment are still to be spent. */
  lemma OperationPotential(t: Track, op: Op)
    requires TrackInv(t) && t.cfg.segmentMaxBytes > 0
    ensures (if op.Write? && !t.closed && TooBig(t, |op.packet.data|) then t.cfg.segmentMaxBytes else 0)
            + OpenBytes(Apply(t, op)) + 2 * t.totalBytes
            <= 2 * Apply(t, op).totalBytes + OpenBytes(t)
  {
    hide Flatten, Keys.SegmentFileName, FileOf, HeaderAt, PayloadBytes, Finished;
    assert !t.closed ==> t.segmentBytes == PayloadBytes(t.contents[|t.contents| - 1]);
  }

  /** Each payload byte pays for at most two size rotations: the one its packet triggers and the one
      that ends its segment. Age rotations and external cuts cost nothing. */
  lemma {:induction false} RotationPotential(t: Track, ops: seq<Op>)
    requires TrackInv(t) && t.cfg.segmentMaxBytes > 0
    ensures SizeRotations(t, ops) * t.cfg.segmentMaxBytes + OpenBytes(Run(t, ops)) + 2 * t.totalBytes
            <= 2 * Run(t, ops).totalBytes + OpenBytes(t)
    decreases |ops|
  {
    hide TrackInv, Apply, TooBig, OpenBytes;
    if ops != [] {
      ApplyInv(t, ops[0]);
      OperationPotential(t, ops[0]);
      RotationPotential(Apply(t, ops[0]), ops[1..]);
      OneMore(SizeRotations(Apply(t, ops[0]), ops[1..]), t.cfg.segmentMaxBytes);
    }
  }

  /** Amortised rotation bound, whatever age rotations and external cuts are mixed in. */
  lemma RotationBound(cfg: TrackConfig, now: Time, ops: seq<Op>)
    requires cfg.segmentMaxBytes > 0
    ensures SizeRotations(NewTrack(cfg, now), ops) * cfg.segmentMaxBytes <= 2 * Run(NewTrack(cfg, now), ops).totalBytes
  {
    var t := NewTrack(cfg, now);
    NewTrackInv(cfg, now);
    RotationPotential(t, ops);
    RunInv(t, ops);
    var t' := Run(t, ops);
    assert OpenBytes(t') >= 0;
  }

  lemma {:induction false} RunInv(t: Track, ops: seq<Op>)
    requires TrackInv(t)
    ensures TrackInv(Run(t, ops)) && Run(t, ops).cfg == t.cfg
  {
    if t.closed {
      ClosedIsFinal(t, ops);
    } else {
      RunConserves(t, ops);
    }
  }

  ghost predicate SizeOnly(t: Track, ops: seq<Op>) {
    t.cfg.segmentDuration <= 0 && forall i :: 0 <= i < |ops| ==> !ops[i].Rotate?
  }

  lemma {:induction false} SegmentsOpened(t: Track, ops: seq<Op>)
    requires TrackInv(t) && SizeOnly(t, ops)
    ensures |Run(t, ops).segments| == |t.segments| + SizeRotations(t, ops)
    decreases |ops|
  {
    hide TrackInv, Keys.SegmentFileName, FileOf, HeaderAt;
    if ops != [] {
      ApplyInv(t, ops[0]);
      assert forall i :: 0 <= i < |ops| - 1 ==> ops[1..][i] == ops[i + 1];
      SegmentsOpened(Apply(t, ops[0]), ops[1..]);
    }
  }

  /** With size rotation only, the same bound limits the number of segments. */
  lemma SegmentCountBound(cfg: TrackConfig, now: Time, ops: seq<Op>)
    requires cfg.segmentMaxBytes > 0 && SizeOnly(NewTrack(cfg, now), ops)
    ensures (|Run(NewTrack(cfg, now), ops).segments| - 1) * cfg.segmentMaxBytes
            <= 2 * Run(NewTrack(cfg, now), ops).totalBytes
  {
    NewTrackInv(cfg, now);
    RotationBound(cfg, now, ops);
    SegmentsOpened(NewTrack(cfg, now), ops);
  }

  /** `k` pairs of packets with 1 and `max - 1` payload bytes. */
  function AlternatingRun(max: int, k: nat, at: Reads): seq<Op>
    requires max >= 2
  {
    if k == 0 then []
    else [Write(Packet([0], 0), at), Write(Packet(seq(max - 1, _ => 0), 0), at)] + AlternatingRun(max, k - 1, at)
  }

  /** One pair, started with an empty or an almost full segment, leaves an almost full segment. */
  lemma AlternatingPair(t: Track, at: Reads)
    requires TrackInv(t) && !t.closed && t.cfg.segmentMaxBytes >= 2
    requires t.segmentBytes == 0 || t.segmentBytes == t.cfg.segmentMaxBytes - 1
    ensures var max := t.cfg.segmentMaxBytes;
            var one, rest := Write(Packet([0], 0), at), Write(Packet(seq(max - 1, _ => 0), 0), at);
            var t1 := Apply(t, one);
            var t2 := Apply(t1, rest);
            && TrackInv(t1) && !t1.closed && TrackInv(t2) && !t2.closed && t2.cfg == t1.cfg == t.cfg
            && (TooBig(t, 1) <==> t.segmentBytes != 0) && TooBig(t1, max - 1)
            && t2.segmentBytes == max - 1 && t2.totalBytes == t.totalBytes + max
  {
    hide TrackInv, Keys.SegmentFileName, FileOf, HeaderAt;
    var one := Write(Packet([0], 0), at);
    ApplyInv(t, one);
    ApplyInv(Apply(t, one), Write(Packet(seq(t.cfg.segmentMaxBytes - 1, _ => 0), 0), at));
  }

  lemma {:induction false} AlternatingRotates(t: Track, k: nat, at: Reads)
    requires TrackInv(t) && !t.closed && t.cfg.segmentMaxBytes >= 2
    requires t.segmentBytes == 0 || t.segmentBytes == t.cfg.segmentMaxBytes - 1
    ensures var max, ops := t.cfg.segmentMaxBytes, AlternatingRun(t.cfg.segmentMaxBytes, k, at);
            && SizeRotations(t, ops) == 2 * k - (if k > 0 && t.segmentBytes == 0 then 1 else 0)
            && Run(t, ops).totalBytes == t.totalBytes + k * max
    decreases k
  {
    hide TrackInv, Apply, TooBig;
    if k > 0 {
      var max := t.cfg.segmentMaxBytes;
      var ops := AlternatingRun(max, k, at);
      var t1 := Apply(t, ops[0]);
      var t2 := Apply(t1, ops[1]);
      AlternatingPair(t, at);
      assert ops[1..][1..] == AlternatingRun(max, k - 1, at);
      assert ops[1..][0] == ops[1];
      AlternatingRotates(t2, k - 1, at);
      OneMore(k - 1, max);
    }
  }

  lemma NewTrackCounters(cfg: TrackConfig, now: Time)
    ensures var t := NewTrack(cfg, now);
            t.cfg == cfg && !t.closed && t.segmentBytes == t.totalBytes == t.packetCount == 0
  {
  }

  lemma {:induction false} AlternatingFits(max: int, k: nat, at: Reads)
    requires 2 <= max <= MAX_PAYLOAD + 1
    ensures FittingWrites(AlternatingRun(max, k, at))
  {
    if k > 0 {
      AlternatingFits(max, k - 1, at);
    }
  }

  /** The factor two is the best possible: these runs miss it by one segment, for every length. Up to a
      limit of 65536 bytes their packets are readable. */
  lemma RotationBoundTight(cfg: TrackConfig, now: Time, k: nat, at: Reads)
    requires cfg.segmentMaxBytes >= 2 && k > 0
    ensures var ops := AlternatingRun(cfg.segmentMaxBytes, k, at);
            (SizeRotations(NewTrack(cfg, now), ops) + 1) * cfg.segmentMaxBytes
              == 2 * Run(NewTrack(cfg, now), ops).totalBytes
            && (cfg.segmentMaxBytes <= MAX_PAYLOAD + 1 ==> FittingWrites(ops))
  {
    hide *;
    var max := cfg.segmentMaxBytes;
    if max <= MAX_PAYLOAD + 1 {
      AlternatingFits(max, k, at);
    }
    NewTrackInv(cfg, now);
    NewTrackCounters(cfg, now);
    AlternatingRotates(NewTrack(cfg, now), k, at);
    Doubled(k, max);
  }

  lemma Doubled(k: int, m: int)
    ensures (2 * k - 1 + 1) * m == 2 * (k * m)
  {
    assert (2 * k) * m == 2 * (k * m);
  }

  // ---------------------------------------------------------------- rotation bounds for readable packets

  /** No packet of the run exceeds the length field. */
  ghost predicate FittingWrites(ops: seq<Op>) {
    forall i :: 0 <= i < |ops| && ops[i].Write? ==> Fits(ops[i].packet)
  }

  /** A size rotation by a readable packet ends a segment with at least the limit less 65535 bytes. */
  lemma FittingPotential(t: Track, op: Op)
    requires TrackInv(t) && (op.Write? ==> Fits(op.packet))
    ensures (if op.Write? && !t.closed && TooBig(t, |op.packet.data|) then t.cfg.segmentMaxBytes - MAX_PAYLOAD else 0)
            + OpenBytes(Apply(t, op)) + t.totalBytes
            <= Apply(t, op).totalBytes + OpenBytes(t)
  {
    hide Flatten, Keys.SegmentFileName, FileOf, HeaderAt, PayloadBytes, Finished;
    assert !t.closed ==> t.segmentBytes == PayloadBytes(t.contents[|t.contents| - 1]);
  }

  lemma {:induction false} FittingRotations(t: Track, ops: seq<Op>)
    requires TrackInv(t) && FittingWrites(ops)
    ensures SizeRotations(t, ops) * (t.cfg.segmentMaxBytes - MAX_PAYLOAD) + OpenBytes(Run(t, ops)) + t.totalBytes
            <= Run(t, ops).totalBytes + OpenBytes(t)
    decreases |ops|
  {
    hide TrackInv, Apply, TooBig, OpenBytes;
    if ops != [] {
      assert FittingWrites([ops[0]]) && FittingWrites(ops[1..]) by { FirstFits(ops); }
      ApplyInv(t, ops[0]);
      FittingPotential(t, ops[0]);
      FittingRotations(Apply(t, ops[0]), ops[1..]);
      OneMore(SizeRotations(Apply(t, ops[0]), ops[1..]), t.cfg.segmentMaxBytes - MAX_PAYLOAD);
    }
  }

  lemma FirstFits(ops: seq<Op>)
    requires FittingWrites(ops) && ops != []
    ensures FittingWrites([ops[0]]) && FittingWrites(ops[1..]) && (ops[0].Write? ==> Fits(ops[0].packet))
  {
  }

  /** With readable packets, each size rotation is paid for by at least the limit less 65535 bytes. */
  lemma FittingRotationBound(cfg: TrackConfig, now: Time, ops: seq<Op>)
    requires FittingWrites(ops)
    ensures SizeRotations(NewTrack(cfg, now), ops) * (cfg.segmentMaxBytes - MAX_PAYLOAD)
            <= Run(NewTrack(cfg, now), ops).totalBytes
  {
    hide *;
    NewTrackInv(cfg, now);
    NewTrackCounters(cfg, now);
    FittingRotations(NewTrack(cfg, now), ops);
    RunInv(NewTrack(cfg, now), ops);
    OpenNatural(Run(NewTrack(cfg, now), ops));
    OpenNothing(NewTrack(cfg, now));
  }

  lemma OpenNatural(t: Track)
    requires TrackInv(t)
    ensures OpenBytes(t) >= 0
  {
  }

  lemma OpenNothing(t: Track)
    requires t.segmentBytes == 0
    ensures OpenBytes(t) == 0
  {
  }

  function SmallWrites(n: nat, at: Reads): seq<Op> {
    if n == 0 then [] else [Write(Packet([0], 0), at)] + SmallWrites(n - 1, at)
  }

  /** `k` times the largest readable packet, then packets of one byte up to the limit less 65535. */
  function FillingRun(max: int, k: nat, at: Reads): seq<Op>
    requires max >= 2 * MAX_PAYLOAD
  {
    if k == 0 then []
    else [Write(Packet(seq(MAX_PAYLOAD, _ => 0), 0), at)] + SmallWrites(max - 2 * MAX_PAYLOAD, at) + FillingRun(max, k - 1, at)
  }

  lemma WriteRoom(t: Track, p: Packet, at: Reads)
    requires TrackInv(t) && !t.closed && t.cfg.segmentDuration <= 0 && t.cfg.segmentMaxBytes > |p.data|
    ensures var t' := Apply(t, Write(p, at));
            && TrackInv(t') && !t'.closed && t'.cfg == t.cfg && t'.totalBytes == t.totalBytes + |p.data|
            && t'.segmentBytes == |p.data| + (if TooBig(t, |p.data|) then 0 else t.segmentBytes)
  {
    hide TrackInv, Keys.SegmentFileName, FileOf, HeaderAt;
    ApplyInv(t, Write(p, at));
  }

  lemma {:induction false} SmallWritesFill(t: Track, n: nat, at: Reads)
    requires TrackInv(t) && !t.closed && t.cfg.segmentDuration <= 0 && t.cfg.segmentMaxBytes > 1
    requires t.segmentBytes + n < t.cfg.segmentMaxBytes
    ensures var t' := Run(t, SmallWrites(n, at));
            && SizeRotations(t, SmallWrites(n, at)) == 0 && FittingWrites(SmallWrites(n, at))
            && TrackInv(t') && !t'.closed && t'.cfg == t.cfg
            && t'.segmentBytes == t.segmentBytes + n && t'.totalBytes == t.totalBytes + n
    decreases n
  {
    hide TrackInv, Apply;
    if n > 0 {
      var ops := SmallWrites(n, at);
      WriteRoom(t, Packet([0], 0), at);
      assert ops[1..] == SmallWrites(n - 1, at);
      SmallWritesFill(Apply(t, ops[0]), n - 1, at);
    }
  }

  lemma {:induction false} SizeRotationsConcat(t: Track, first: seq<Op>, second: seq<Op>)
    requires t.Shaped()
    ensures SizeRotations(t, first + second) == SizeRotations(t, first) + SizeRotations(Run(t, first), second)
    ensures Run(t, first + second) == Run(Run(t, first), second)
    decreases |first|
  {
    hide Apply, TooBig;
    if first == [] {
      assert first + second == second;
    } else {
      assert (first + second)[1..] == first[1..] + second;
      SizeRotationsConcat(Apply(t, first[0]), first[1..], second);
    }
  }

  lemma {:induction false} FillingRotates(t: Track, k: nat, at: Reads)
    requires TrackInv(t) && !t.closed && t.cfg.segmentDuration <= 0 && t.cfg.segmentMaxBytes >= 2 * MAX_PAYLOAD
    requires t.segmentBytes == 0 || t.segmentBytes == t.cfg.segmentMaxBytes - MAX_PAYLOAD
    ensures var max, ops := t.cfg.segmentMaxBytes, FillingRun(t.cfg.segmentMaxBytes, k, at);
            && FittingWrites(ops)
            && SizeRotations(t, ops) == k - (if k > 0 && t.segmentBytes == 0 then 1 else 0)
            && Run(t, ops).totalBytes == t.totalBytes + k * (max - MAX_PAYLOAD)
    decreases k
  {
    hide TrackInv, Apply, TooBig;
    if k > 0 {
      var max := t.cfg.segmentMaxBytes;
      var big, small, rest := Write(Packet(seq(MAX_PAYLOAD, _ => 0), 0), at), SmallWrites(max - 2 * MAX_PAYLOAD, at), FillingRun(max, k - 1, at);
      var t1 := Apply(t, big);
      WriteRoom(t, big.packet, at);
      assert TooBig(t, MAX_PAYLOAD) <==> t.segmentBytes != 0 by { BigPacketRotates(t); }
      SmallWritesFill(t1, max - 2 * MAX_PAYLOAD, at);
      FillingRotates(Run(t1, small), k - 1, at);
      SizeRotationsConcat(t1, small, rest);
      assert FillingRun(max, k, at) == [big] + (small + rest);
      assert ([big] + (small + rest))[1..] == small + rest;
      OneMore(k - 1, max - MAX_PAYLOAD);
      assert FittingWrites([big] + (small + rest)) by { FitsJoin(big, small, rest); }
    }
  }

  lemma FitsJoin(op: Op, first: seq<Op>, second: seq<Op>)
    requires (op.Write? ==> Fits(op.packet)) && FittingWrites(first) && FittingWrites(second)
    ensures FittingWrites([op] + (first + second))
  {
    var all := [op] + (first + second);
    forall i | 0 <= i < |all| && all[i].Write? ensures Fits(all[i].packet) {
      assert all[i] == if i == 0 then op else if i <= |first| then first[i - 1] else second[i - 1 - |first|];
    }
  }

  lemma BigPacketRotates(t: Track)
    requires t.cfg.segmentMaxBytes >= 2 * MAX_PAYLOAD
    requires t.segmentBytes == 0 || t.segmentBytes == t.cfg.segmentMaxBytes - MAX_PAYLOAD
    ensures TooBig(t, MAX_PAYLOAD) <==> t.segmentBytes != 0
  {
  }

  /** And that is the best possible bound for readable packets, from a limit of 131070 bytes on: these
      runs miss it by one segment, for every length. */
  lemma FittingBoundTight(cfg: TrackConfig, now: Time, k: nat, at: Reads)
    requires cfg.segmentMaxBytes >= 2 * MAX_PAYLOAD && cfg.segmentDuration <= 0 && k > 0
    ensures var ops := FillingRun(cfg.segmentMaxBytes, k, at);
            && FittingWrites(ops)
            && (SizeRotations(NewTrack(cfg, now), ops) + 1) * (cfg.segmentMaxBytes - MAX_PAYLOAD)
                 == Run(NewTrack(cfg, now), ops).totalBytes
  {
    hide *;
    NewTrackInv(cfg, now);
    NewTrackCounters(cfg, now);
    FillingRotates(NewTrack(cfg, now), k, at);
  }

  // ---------------------------------------------------------------- size and age of segments

  ghost predicate Small(t: Track) {
    forall i :: 0 <= i < |t.contents| ==>
      |t.contents[i]| <= 1 || PayloadBytes(t.contents[i]) < t.cfg.segmentMaxBytes
  }

  lemma ApplySmall(t: Track, op: Op)
    requires TrackInv(t) && t.cfg.segmentMaxBytes > 0 && Small(t)
    ensures Small(Apply(t, op))
  {
    hide Keys.SegmentFileName, FileOf, HeaderAt, PayloadBytes, Flatten;
    if op.Write? && !t.closed {
      EmptyPayload();
      PayloadAppend(t.contents[|t.contents| - 1], op.packet);
    }
  }

  lemma {:induction false} RunSmall(t: Track, ops: seq<Op>)
    requires TrackInv(t) && t.cfg.segmentMaxBytes > 0 && Small(t)
    ensures Small(Run(t, ops))
    decreases |ops|
  {
    if ops != [] {
      ApplyInv(t, ops[0]);
      ApplySmall(t, ops[0]);
      RunSmall(Apply(t, ops[0]), ops[1..]);
    }
  }

  /** A finished segment file stays below the limit plus its framing, unless it holds one packet. */
  lemma SegmentFileBound(cfg: TrackConfig, now: Time, ops: seq<Op>, i: nat)
    requires cfg.segmentMaxBytes > 0
    requires var t := Run(NewTrack(cfg, now), ops); i < |t.segments| && (t.closed || i < |t.segments| - 1)
    ensures var s := Run(NewTrack(cfg, now), ops).segments[i];
            s.packetCount != 1 ==>
              s.bytes <= HEADER_SIZE + RECORD_OVERHEAD * s.packetCount + cfg.segmentMaxBytes - 1
  {
    NewTrackInv(cfg, now);
    var t := Run(NewTrack(cfg, now), ops);
    RunInv(NewTrack(cfg, now), ops);
    RunSmall(NewTrack(cfg, now), ops);
    hide FileOf, HeaderAt, Run, NewTrack, Flatten, Keys.SegmentFileName;
    assert Finished(t, i);
    FileSize(HeaderAt(t.cfg, t.segments[i].startTime), t.contents[i]);
  }

  lemma {:induction false} RunNext(t: Track, ops: seq<Op>, op: Op)
    requires t.Shaped()
    ensures Run(t, ops + [op]) == Apply(Run(t, ops), op)
    decreases |ops|
  {
    hide Apply;
    if ops == [] {
      assert [] + [op] == [op] && [op][1..] == [];
    } else {
      assert (ops + [op])[1..] == ops[1..] + [op];
      RunNext(Apply(t, ops[0]), ops[1..], op);
    }
  }

  /** The state of a fresh track after a run. */
  function Reached(cfg: TrackConfig, now: Time, ops: seq<Op>): (t: Track)
    ensures t.Shaped()
  {
    Run(NewTrack(cfg, now), ops)
  }

  lemma ReachedNext(cfg: TrackConfig, now: Time, ops: seq<Op>, op: Op)
    ensures TrackInv(Reached(cfg, now, ops)) && Reached(cfg, now, ops).cfg == cfg
    ensures Reached(cfg, now, ops + [op]) == Apply(Reached(cfg, now, ops), op)
  {
    hide TrackInv, Apply, NewTrack, Run;
    NewTrackInv(cfg, now);
    NewTrackCounters(cfg, now);
    RunInv(NewTrack(cfg, now), ops);
    RunNext(NewTrack(cfg, now), ops, op);
  }

  /** After every accepted packet of every run, the current segment is below the size limit or holds
      only that packet, and was younger than the age limit at the reading that admitted it. */
  lemma AdmittedToYoungSegment(cfg: TrackConfig, now: Time, ops: seq<Op>, p: Packet, r: Reads)
    requires !Reached(cfg, now, ops).closed && r.check <= r.start
    ensures var t := Reached(cfg, now, ops + [Write(p, r)]);
            && (cfg.segmentDuration > 0 ==> r.check < t.segmentStart + cfg.segmentDuration)
            && (cfg.segmentMaxBytes > 0 ==> t.segmentBytes < cfg.segmentMaxBytes || t.contents[|t.contents| - 1] == [p])
  {
    ReachedNext(cfg, now, ops, Write(p, r));
    hide Keys.SegmentFileName, FileOf, HeaderAt, Flatten, Reached;
    assert [] + [p] == [p];
  }

  // ---------------------------------------------------------------- order of segments

  /** The readings of a run never go back, starting from `now`. */
  ghost predicate ClockRuns(now: Time, ops: seq<Op>)
    decreases |ops|
  {
    ops == [] ||
    match ops[0]
    case Write(_, r) => now <= r.check <= r.cut <= r.start <= r.written && ClockRuns(r.written, ops[1..])
    case Rotate(_, n) => now <= n && ClockRuns(n, ops[1..])
    case Close(_, n, m) => now <= n <= m && ClockRuns(m, ops[1..])
  }

  ghost predicate CutoffsPast(ops: seq<Op>) {
    forall i :: 0 <= i < |ops| && ops[i].Rotate? && ops[i].cutoff.Some? ==> ops[i].cutoff.value <= ops[i].now
  }

  /** Every segment but the last ends between its own start and the start of the next. */
  ghost predicate Ordered(segments: seq<SegmentInfo>) {
    forall i :: 0 <= i < |segments| - 1 ==>
      && segments[i].endTime.Some?
      && segments[i].startTime <= segments[i].endTime.value <= segments[i + 1].startTime
  }

  /** Without a size limit a cutoff may even lie in the future: the age limit then rotates late enough. */
  lemma {:induction false} OrderKept(t: Track, now: Time, ops: seq<Op>)
    requires TrackInv(t) && Ordered(t.segments) && ClockRuns(now, ops)
    requires t.cfg.segmentMaxBytes <= 0 || (CutoffsPast(ops) && (!t.closed ==> t.segmentStart <= now))
    ensures Ordered(Run(t, ops).segments)
    decreases |ops|
  {
    hide Keys.SegmentFileName, FileOf, HeaderAt, Flatten, PayloadBytes;
    if ops != [] {
      ApplyInv(t, ops[0]);
      var t' := Apply(t, ops[0]);
      assert forall i :: 0 <= i < |ops| - 1 ==> ops[1..][i] == ops[i + 1];
      match ops[0] {
        case Write(_, r) => OrderKept(t', r.written, ops[1..]);
        case Rotate(_, n) => OrderKept(t', n, ops[1..]);
        case Close(_, _, m) => OrderKept(t', m, ops[1..]);
      }
    }
  }

  /** With a clock that never goes back and cutoffs that are not in the future, segments follow
      one another without overlap. */
  lemma SegmentsOrdered(cfg: TrackConfig, now: Time, ops: seq<Op>)
    requires ClockRuns(now, ops) && (CutoffsPast(ops) || cfg.segmentMaxBytes <= 0)
    ensures Ordered(Run(NewTrack(cfg, now), ops).segments)
  {
    NewTrackInv(cfg, now);
    OrderKept(NewTrack(cfg, now), now, ops);
  }

  /** However a run goes on from here, its segments are ordered. */
  ghost predicate StaysOrdered(t: Track, now: Time)
    requires t.Shaped()
  {
    forall ops :: ClockRuns(now, ops) && CutoffsPast(ops) ==> Ordered(Run(t, ops).segments)
  }

  /** The exact condition on one cutoff: order is safe in every continuation if and only if the cutoff
      is not in the future or there is no size limit. */
  lemma CutoffSafeIff(t: Track, cutoff: Option<Time>, now: Time)
    requires TrackInv(t) && !t.closed && Ordered(t.segments) && t.segmentStart <= now
    ensures StaysOrdered(RotateAt(t, cutoff, now), now)
       <==> (cutoff.Some? ==> cutoff.value <= now) || t.cfg.segmentMaxBytes <= 0
  {
    hide Keys.SegmentFileName, FileOf, HeaderAt, Flatten, PayloadBytes;
    var t' := RotateAt(t, cutoff, now);
    RotateAtInv(t, cutoff, now);
    assert Ordered(t'.segments);
    if (cutoff.Some? ==> cutoff.value <= now) || t.cfg.segmentMaxBytes <= 0 {
      forall ops | ClockRuns(now, ops) && CutoffsPast(ops) ensures Ordered(Run(t', ops).segments) {
        OrderKept(t', now, ops);
      }
    } else {
      EarlyRotation(t', now);
    }
  }

  /** A packet that fills a segment which starts in the future ends it before its start. */
  lemma EarlyRotation(t: Track, now: Time)
    requires TrackInv(t) && !t.closed && now < t.segmentStart && t.cfg.segmentMaxBytes > 0
    ensures !StaysOrdered(t, now)
  {
    hide Keys.SegmentFileName, FileOf, HeaderAt, Flatten, PayloadBytes;
    var p := Packet(seq(t.cfg.segmentMaxBytes, _ => 0), 0);
    var ops := [Write(p, Reads(now, now, now, now))];
    assert ops[1..] == [] && ClockRuns(now, []);
    assert ClockRuns(now, ops) && CutoffsPast(ops);
    var t' := Apply(t, ops[0]);
    assert Run(t, ops) == Run(t', []) == t';
    assert t.segmentBytes >= 0 by { PayloadNatural(t); }
    var last := |t.segments| - 1;
    assert t'.segments[last].startTime == t.segmentStart && t'.segments[last].endTime == Some(now);
    assert !Ordered(t'.segments);
  }

  lemma PayloadNatural(t: Track)
    requires TrackInv(t) && !t.closed
    ensures t.segmentBytes >= 0
  {
  }

  /** One future cutoff, then a size-triggered rotation: the middle segment ends before it starts. */
  lemma FutureCutoffBreaksOrder(cfg: TrackConfig)
    requires cfg.segmentDuration <= 0 && cfg.segmentMaxBytes == 1
    ensures var ops := [Rotate(Some(100), 0), Write(Packet([0], 0), Reads(1, 1, 1, 1))];
            ClockRuns(0, ops) && !Ordered(Run(NewTrack(cfg, 0), ops).segments)
  {
    hide FileOf, HeaderAt;
    var ops := [Rotate(Some(100), 0), Write(Packet([0], 0), Reads(1, 1, 1, 1))];
    var t0 := NewTrack(cfg, 0);
    var t1 := Apply(t0, ops[0]);
    var t2 := Apply(t1, ops[1]);
    assert ops[1..] == [ops[1]] && ops[1..][1..] == [];
    assert ClockRuns(1, []);
    assert ClockRuns(0, ops[1..]);
    assert Run(t0, ops) == Run(t1, ops[1..]) == Run(t2, []);
    assert t2.segments[1].startTime == 100 && t2.segments[1].endTime == Some(1);
  }

  /** In every run, an external cut leaves no gap: the old segment ends where the new one starts, which
      is the requested time unless that lies before the old segment. */
  lemma CutIsSeamless(cfg: TrackConfig, start: Time, ops: seq<Op>, cutoff: Option<Time>, now: Time)
    requires !Reached(cfg, start, ops).closed
    ensures var t, t' := Reached(cfg, start, ops), Reached(cfg, start, ops + [Rotate(cutoff, now)]);
            var n := |t.segments|;
            && |t'.segments| == n + 1
            && t'.segments[n - 1].startTime == t.segments[n - 1].startTime <= t'.segments[n].startTime
            && t'.segments[n - 1].endTime == Some(t'.segments[n].startTime)
            && (cutoff.Some? && cutoff.value >= t.segments[n - 1].startTime ==> t'.segments[n].startTime == cutoff.value)
  {
    ReachedNext(cfg, start, ops, Rotate(cutoff, now));
    hide FileOf, HeaderAt, Flatten, Keys.SegmentFileName, Reached;
  }

  /** CloseAt does not clamp: in every run, the last segment is ordered exactly when the close time is
      not before its start. */
  lemma LastSegmentOrdered(cfg: TrackConfig, start: Time, ops: seq<Op>, end: Option<Time>, closeNow: Time, endNow: Time)
    requires !Reached(cfg, start, ops).closed
    ensures var t, t' := Reached(cfg, start, ops), Reached(cfg, start, ops + [Close(end, closeNow, endNow)]);
            var n := |t.segments|;
            && |t'.segments| == n && t'.segments[n - 1].endTime.Some?
            && (t'.segments[n - 1].startTime <= t'.segments[n - 1].endTime.value
                <==> t.segments[n - 1].startTime <= if end.Some? then end.value else closeNow)
  {
    ReachedNext(cfg, start, ops, Close(end, closeNow, endNow));
    hide FileOf, HeaderAt, Flatten, Keys.SegmentFileName, Reached;
  }

  /** A concrete close whose end time lies before the segment. */
  lemma EarlyCloseExample(cfg: TrackConfig)
    ensures var last := Reached(cfg, 100, [Close(Some(50), 101, 102)]).segments[0];
            last.endTime == Some(50) && last.startTime == 100
  {
    hide FileOf, HeaderAt, Keys.SegmentFileName;
    var ops := [Close(Some(50), 101, 102)];
    assert ops[1..] == [];
    assert Reached(cfg, 100, ops) == Run(Apply(NewTrack(cfg, 100), ops[0]), []);
  }

  // ---------------------------------------------------------------- end to end

  /** The object a finished segment leaves in storage: none when it has no packet. */
  ghost function StoredObject(t: Track, i: int): Option<Bytes> {
    if t.Shaped() && 0 <= i < |t.segments| && t.contents[i] != [] then Some(SegmentFile(t, i)) else None
  }

  ghost function StoredObjects(t: Track, k: nat): (objects: seq<Option<Bytes>>)
    requires t.Shaped() && k <= |t.segments|
    ensures |objects| == k && forall i :: 0 <= i < k ==> objects[i] == StoredObject(t, i)
  {
    if k == 0 then [] else StoredObjects(t, k - 1) + [StoredObject(t, k - 1)]
  }

  /** Reading a track back: decode each object in segment order. */
  function ReadBack(objects: seq<Option<Bytes>>): seq<Packet> {
    if objects == [] then []
    else
      var last := objects[|objects| - 1];
      ReadBack(objects[..|objects| - 1]) + if last.Some? then DecodeFile(last.value).packets else []
  }

  lemma SegmentReadsBack(t: Track, i: nat)
    requires t.Shaped() && i < |t.segments|
    ensures var o := StoredObject(t, i);
            var back := if o.Some? then DecodeFile(o.value).packets else [];
            back == t.contents[i] <==> AllFit(t.contents[i])
  {
    hide HeaderAt, FileOf, DecodeFile;
    FileRoundTrip(HeaderAt(t.cfg, t.segments[i].startTime), t.contents[i]);
  }

  lemma {:induction false} ReadBackFitting(t: Track, k: nat)
    requires t.Shaped() && k <= |t.segments| && AllFit(Flatten(t.contents[..k]))
    ensures ReadBack(StoredObjects(t, k)) == Flatten(t.contents[..k])
  {
    hide HeaderAt, FileOf, DecodeFile, StoredObject;
    if k > 0 {
      var front, last := t.contents[..k - 1], t.contents[k - 1];
      assert t.contents[..k][..k - 1] == front;
      var all := Flatten(front) + last;
      assert all == Flatten(t.contents[..k]);
      forall i | 0 <= i < |Flatten(front)| ensures Fits(Flatten(front)[i]) {
        assert all[i] == Flatten(front)[i];
      }
      forall i | 0 <= i < |last| ensures Fits(last[i]) {
        assert all[|Flatten(front)| + i] == last[i];
      }
      ReadBackFitting(t, k - 1);
      SegmentReadsBack(t, k - 1);
      assert StoredObjects(t, k)[..k - 1] == StoredObjects(t, k - 1);
    }
  }

  lemma {:induction false} ReadBackOversize(t: Track, k: nat) returns (j: nat)
    requires t.Shaped() && k <= |t.segments| && !AllFit(Flatten(t.contents[..k]))
    ensures var back, flat := ReadBack(StoredObjects(t, k)), Flatten(t.contents[..k]);
            j < |back| && j < |flat| && back[j] != flat[j]
  {
    hide HeaderAt, FileOf, DecodeFile;
    var front, last := t.contents[..k - 1], t.contents[k - 1];
    assert t.contents[..k][..k - 1] == front;
    assert StoredObjects(t, k)[..k - 1] == StoredObjects(t, k - 1);
    if AllFit(Flatten(front)) {
      ReadBackFitting(t, k - 1);
      var i := OversizeAltersFile(HeaderAt(t.cfg, t.segments[k - 1].startTime), last);
      j := |Flatten(front)| + i;
    } else {
      j := ReadBackOversize(t, k - 1);
    }
  }

  /** End to end: for every run of packets, age and size rotations and external cuts, decoding the
      stored objects of a closed track in segment order gives exactly the accepted packets, if and
      only if none of them exceeds the 16-bit length field. */
  lemma EndToEnd(cfg: TrackConfig, now: Time, ops: seq<Op>)
    requires Run(NewTrack(cfg, now), ops).closed
    ensures var t := Run(NewTrack(cfg, now), ops);
            ReadBack(StoredObjects(t, |t.segments|)) == AcceptedPackets(ops) <==> AllFit(AcceptedPackets(ops))
  {
    NewTrackInv(cfg, now);
    RunConserves(NewTrack(cfg, now), ops);
    var t := Run(NewTrack(cfg, now), ops);
    assert [] + AcceptedPackets(ops) == AcceptedPackets(ops);
    ReadBackIffFits(t);
  }

  lemma ReadBackIffFits(t: Track)
    requires t.Shaped()
    ensures ReadBack(StoredObjects(t, |t.segments|)) == Flatten(t.contents) <==> AllFit(Flatten(t.contents))
  {
    assert t.contents[..|t.segments|] == t.contents;
    if AllFit(Flatten(t.contents)) {
      ReadBackFitting(t, |t.segments|);
    } else {
      var j := ReadBackOversize(t, |t.segments|);
    }
  }
}
