/** The TrackWriter itself: counters and a segment list updated in place, over a chain of packet
    writer, byte counter, stream writer and upload that is replaced at every rotation. Each method is
    proved against the operation of the same name on the abstract track. */
module TrackWriters {
  import opened GoTypes
  import opened Brtp
  import opened Multipart
  import opened RtpWriter
  import opened TrackModel
  import opened TrackProofs
  import opened TrackLaws
  import Keys

  /** One finished upload: its key and what storage made of it. */
  datatype UploadRecord = UploadRecord(key: string, status: UploadStatus)

  /** Where the objects of a track go. */
  datatype Place = Place(roomID: string, recordingID: string)

  function KeyAt(place: Place, trackID: string, index: nat): string {
    Keys.SegmentKey(place.roomID, place.recordingID, trackID, index)
  }

  function RecordAt(place: Place, t: Track, i: nat): UploadRecord
    requires t.Shaped() && i < |t.segments|
  {
    var file := SegmentFile(t, i);
    UploadRecord(KeyAt(place, t.cfg.trackID, i + 1), if file == [] then Aborted else Completed(file))
  }

  /** The uploads that the first `k` segments of a track must have left. */
  function Archive(place: Place, t: Track, k: nat): (records: seq<UploadRecord>)
    requires t.Shaped() && k <= |t.segments|
    ensures |records| == k && forall i :: 0 <= i < k ==> records[i] == RecordAt(place, t, i)
  {
    if k == 0 then [] else Archive(place, t, k - 1) + [RecordAt(place, t, k - 1)]
  }

  lemma {:induction false} ArchiveStable(place: Place, t: Track, t': Track, k: nat)
    requires t.Shaped() && t'.Shaped() && k <= |t.segments| && k <= |t'.segments| && t.cfg == t'.cfg
    requires forall i :: 0 <= i < k ==>
               t.segments[i].startTime == t'.segments[i].startTime && t.contents[i] == t'.contents[i]
    ensures Archive(place, t, k) == Archive(place, t', k)
  {
    hide FileOf, HeaderAt, KeyAt;
    if k > 0 {
      ArchiveStable(place, t, t', k - 1);
    }
  }

  lemma ArchiveStarts(place: Place, t: Track, now: Time)
    requires |t.segments| == |t.contents|
    ensures var t' := StartSegment(t, now);
            Archive(place, t', |t.segments|) == if t.segments == [] then [] else Archive(place, t, |t.segments|)
  {
    if t.segments != [] {
      ArchiveStable(place, t, StartSegment(t, now), |t.segments|);
    }
  }

  lemma ArchiveCloses(place: Place, t: Track, end: Time)
    requires t.Shaped()
    ensures var n, file := |t.segments|, SegmentFile(t, |t.segments| - 1);
            Archive(place, CloseSegment(t, end), n)
              == Archive(place, t, n - 1)
                 + [UploadRecord(KeyAt(place, t.cfg.trackID, n), if file == [] then Aborted else Completed(file))]
  {
    hide FileOf, HeaderAt, KeyAt;
    ArchiveStable(place, t, CloseSegment(t, end), |t.segments|);
  }

  /** The archive of a finished track holds the stored objects of the abstract track. */
  lemma ArchiveObjects(place: Place, t: Track, k: nat)
    requires t.Shaped() && k <= |t.segments|
    ensures Objects(Archive(place, t, k)) == StoredObjects(t, k)
  {
    hide EncodeHeader, EncodeRecords, HeaderAt, KeyAt;
    forall i | 0 <= i < k
      ensures Objects(Archive(place, t, k))[i] == StoredObjects(t, k)[i]
    {
      assert Archive(place, t, k)[i] == RecordAt(place, t, i);
    }
  }

  lemma EmptyFile(t: Track, i: nat)
    requires t.Shaped() && i < |t.segments| && SegmentFile(t, i) != []
    ensures t.contents[i] != []
  {
  }

  /** The objects an archive lets a reader fetch, in segment order. */
  function Objects(records: seq<UploadRecord>): (objects: seq<Option<Bytes>>)
    ensures |objects| == |records|
    ensures forall i :: 0 <= i < |records| ==>
              objects[i] == if records[i].status.Completed? then Some(records[i].status.content) else None
  {
    seq(|records|, i requires 0 <= i < |records| =>
      var s := records[i].status; if s.Completed? then Some(s.content) else None)
  }

  /** The writers of a new segment, from the packet buffer down to the upload. */
  method OpenChain(key: string, header: FileHeader) returns (writer: Writer)
    requires header.Shaped() && header.magic == MAGIC && header.version == FORMAT_VERSION
    ensures writer.Valid() && fresh(writer.Repr()) && !writer.closed && !writer.writer.w.closed
    ensures writer.accepted == [] && writer.header == header && writer.writer.w.upload.key == key
  {
    hide Writer.Valid, S3StreamWriter.Valid;
    var upload := new S3StreamWriter(key);
    var counting := new CountingWriteCloser(upload);
    writer := new Writer(header, counting);
  }

  class TrackWriter {
    const cfg: TrackConfig
    const place: Place
    const startTime: Time

    var rtpWriter: Writer?
    var segmentWriter: CountingWriteCloser?
    var segmentStart: Time
    var segmentIndex: int
    var segmentBytes: int
    var segmentPackets: int
    var segments: seq<SegmentInfo>
    var lastPacket: Time
    var endTime: Option<Time>
    var packetCount: int
    var totalBytes: int
    var closed: bool

    ghost var contents: seq<seq<Packet>> // the packets accepted into each segment
    ghost var archive: seq<UploadRecord> // every upload as it was left when its writer closed

    ghost function Repr(): (objects: set<object>)
      reads this
      ensures this in objects
    {
      if rtpWriter == null then {this} else {this} + rtpWriter.Repr()
    }

    ghost function View(): Track
      reads this
    {
      Track(cfg, segments, contents, segmentStart, segmentBytes, segmentPackets,
            startTime, lastPacket, endTime, packetCount, totalBytes, closed)
    }

    /** The first `k` segments are in storage, each under its own key. */
    ghost predicate Stored(k: nat)
      reads this
    {
      && |segments| == |contents| == segmentIndex
      && k <= |segments|
      && (if segments == [] then archive == [] else archive == Archive(place, View(), k))
    }

    /** The current segment streams into an open upload under its key. */
    ghost predicate Streaming()
      reads this, Repr()
    {
      && segments != [] && contents != []
      && rtpWriter != null && segmentWriter != null
      && this !in rtpWriter.Repr()
      && rtpWriter.writer == segmentWriter
      && rtpWriter.Valid() && !rtpWriter.closed && !segmentWriter.w.closed
      && rtpWriter.header == HeaderAt(cfg, segments[|segments| - 1].startTime)
      && rtpWriter.accepted == contents[|contents| - 1]
      && segmentWriter.w.upload.key == KeyAt(place, cfg.trackID, |segments|)
    }

    ghost predicate Valid()
      reads this, Repr()
    {
      && TrackInv(View())
      && (if closed then rtpWriter == null && segmentWriter == null && Stored(|segments|)
          else Streaming() && Stored(|segments| - 1))
    }

    constructor (cfg: TrackConfig, place: Place, now: Time)
      ensures Valid() && fresh(Repr()) && View() == NewTrack(cfg, now) && this.place == place
      ensures Begins(View(), cfg, now) && this.cfg == cfg
    {
      this.cfg, this.place, startTime := cfg, place, now;
      rtpWriter, segmentWriter := null, null;
      segmentStart, segmentIndex, segmentBytes, segmentPackets, segments := now, 0, 0, 0, [];
      lastPacket, endTime, packetCount, totalBytes, closed := now, None, 0, 0, false;
      contents, archive := [], [];
      new;
      StartLaw(cfg, now);
      hide TrackInv, StartSegment, Streaming, Archive, Begins;
      assert Stored(|segments|);
      NewTrackInv(cfg, now);
      StartNewSegment(now);
    }

    method StartNewSegment(now: Time)
      requires Stored(|segments|) && !closed
      modifies this
      ensures Streaming() && fresh(Repr() - {this}) && !closed
      ensures View() == StartSegment(old(View()), now) && Stored(|segments| - 1)
    {
      hide HeaderAt, KeyAt, Archive, Writer.Valid, StartSegment, FileOf, CountingWriteCloser.Valid, S3StreamWriter.Valid;
      segmentIndex := segmentIndex + 1;
      var writer := OpenChain(KeyAt(place, cfg.trackID, segmentIndex), HeaderAt(cfg, now));
      assert this !in writer.Repr();
      rtpWriter, segmentWriter := writer, writer.writer;
      ListSegment(now);
    }

    /** The bookkeeping half of startNewSegment. */
    method ListSegment(now: Time)
      requires !closed && segmentIndex == |segments| + 1 && |contents| == |segments|
      requires if segments == [] then archive == [] else archive == Archive(place, View(), |segments|)
      modifies this
      ensures rtpWriter == old(rtpWriter) && segmentWriter == old(segmentWriter) && segmentIndex == old(segmentIndex) && !closed
      ensures View() == StartSegment(old(View()), now) && Stored(|segments| - 1)
      ensures segments[|segments| - 1].startTime == now && contents[|contents| - 1] == []
    {
      hide Archive, Keys.SegmentFileName;
      segmentStart, segmentBytes, segmentPackets := now, 0, 0;
      segments := segments + [SegmentInfo(Keys.SegmentFileName(cfg.trackID, segmentIndex), now, None, 0, 0)];
      contents := contents + [[]];
      ArchiveStarts(place, old(View()), now);
    }

    /** `now` is read only when no end time is given. */
    method CloseSegmentAt(end: Option<Time>, now: Time)
      requires rtpWriter == null || (Streaming() && Stored(|segments| - 1))
      modifies this, Repr()
      ensures closed == old(closed)
      ensures old(rtpWriter) == null ==> View() == old(View()) && rtpWriter == null && archive == old(archive)
      ensures old(rtpWriter) != null ==>
                && rtpWriter == null && segmentWriter == null && Stored(|segments|) && old(View()).Shaped()
                && View() == CloseSegment(old(View()), if end.Some? then end.value else now)
    {
      hide HeaderAt, KeyAt, Archive, SegmentFile, Streaming, Stored;
      if rtpWriter == null {
        return;
      }
      var bytes, record := CloseChain();
      FinishSegment(bytes, if end.Some? then end.value else now, record);
    }

    /** Close the current chain of writers. */
    method CloseChain() returns (bytes: int, ghost record: UploadRecord)
      requires Streaming() && Stored(|segments| - 1)
      modifies Repr() - {this}
      ensures View().Shaped()
      ensures var file := SegmentFile(View(), |segments| - 1);
              && bytes == |file|
              && record == UploadRecord(KeyAt(place, cfg.trackID, |segments|), if file == [] then Aborted else Completed(file))
    {
      hide HeaderAt, KeyAt, Archive, FileOf, Writer.Valid, CountingWriteCloser.Valid, S3StreamWriter.Valid;
      rtpWriter.Close();
      segmentWriter.Close();
      bytes := segmentWriter.Bytes();
      record := UploadRecord(segmentWriter.w.upload.key, segmentWriter.w.upload.status);
    }

    /** List what the closed chain reported. */
    method FinishSegment(bytes: int, end: Time, ghost record: UploadRecord)
      requires segments != [] && Stored(|segments| - 1) && View().Shaped()
      requires var file := SegmentFile(View(), |segments| - 1);
               && bytes == |file|
               && record == UploadRecord(KeyAt(place, cfg.trackID, |segments|), if file == [] then Aborted else Completed(file))
      modifies this
      ensures closed == old(closed) && rtpWriter == null && segmentWriter == null
      ensures View() == CloseSegment(old(View()), end) && Stored(|segments|)
    {
      hide KeyAt, Archive, FileOf, HeaderAt;
      var last := |segments| - 1;
      segmentBytes := bytes;
      segments := segments[last := segments[last].(
        endTime := Some(end),
        bytes := segmentBytes,
        packetCount := segmentPackets)];
      archive := archive + [record];
      rtpWriter, segmentWriter := null, null;
      ArchiveCloses(place, old(View()), end);
    }

    method RotateSegment(cut: Time, start: Time)
      requires Valid() && !closed
      modifies this, Repr()
      ensures Valid() && !closed && fresh(Repr() - old(Repr()))
      ensures View() == StartSegment(CloseSegment(old(View()), cut), start)
    {
      hide HeaderAt, KeyAt, Archive, FileOf, Flatten, Writer.Valid, TrackInv, AllFinished, CloseSegment;
      CloseSegmentFinishes(View(), cut);
      CloseSegmentAt(None, cut);
      StartSegmentOpens(View(), start);
      StartNewSegment(start);
    }

    method Append(p: Packet, written: Time)
      requires Valid() && !closed
      modifies this, Repr()
      ensures Valid() && Repr() == old(Repr())
      ensures View() == AppendPacket(old(View()), p, written)
    {
      hide HeaderAt, KeyAt, Archive, FileOf, Flatten, PayloadBytes, TrackInv, Writer.Valid;
      AppendPacketInv(View(), p, written);
      var ok := rtpWriter.WritePacket(p);
      lastPacket := written;
      packetCount := packetCount + 1;
      totalBytes := totalBytes + |p.data|;
      segmentPackets := segmentPackets + 1;
      segmentBytes := segmentBytes + |p.data|;
      contents := contents[|contents| - 1 := contents[|contents| - 1] + [p]];
      ArchiveStable(place, old(View()), View(), |segments| - 1);
    }

    method WritePacket(p: Packet, r: Reads) returns (ok: bool)
      requires Valid()
      modifies this, Repr()
      ensures Valid() && fresh(Repr() - old(Repr()))
      ensures View() == TrackModel.WritePacket(old(View()), p, r).0 && ok == !old(closed)
      ensures if old(closed) then View() == old(View()) else Wrote(old(View()), View(), p, r)
    {
      WriteValues(View(), p, r);
      hide Wrote, TrackInv, Streaming, Stored, CloseSegment, StartSegment, AppendPacket;
      if closed {
        return false;
      }
      if (cfg.segmentDuration > 0 && r.check - segmentStart >= cfg.segmentDuration)
         || (cfg.segmentMaxBytes > 0 && segmentBytes + |p.data| >= cfg.segmentMaxBytes) {
        RotateSegment(r.cut, r.start);
      }
      Append(p, r.written);
      ok := true;
    }

    /** The flush timer of the current segment may fire between any two calls. */
    method BackgroundFlush()
      requires Valid()
      modifies Repr() - {this}
      ensures Valid() && Repr() == old(Repr()) && View() == old(View())
    {
      hide HeaderAt, KeyAt, Archive, TrackInv, Writer.Valid;
      if rtpWriter != null {
        rtpWriter.Flush();
      }
    }

    method RotateAt(cutoff: Option<Time>, now: Time)
      requires Valid()
      modifies this, Repr()
      ensures Valid() && fresh(Repr() - old(Repr()))
      ensures View() == TrackModel.RotateAt(old(View()), cutoff, now)
      ensures if old(closed) then View() == old(View()) else WasCut(old(View()), View(), cutoff, now)
    {
      CutValues(View(), cutoff, now);
      hide WasCut, TrackInv, Streaming, Stored, CloseSegment, StartSegment;
      if closed {
        return;
      }
      var cut := if cutoff == None then now else cutoff.value;
      if cut < segmentStart {
        cut := segmentStart;
      }
      RotateSegment(cut, cut);
    }

    method CloseAt(end: Option<Time>, closeNow: Time, endNow: Time) returns (packets: int, bytes: int)
      requires Valid()
      modifies this, Repr()
      ensures Valid() && closed && fresh(Repr() - old(Repr()))
      ensures View() == TrackModel.CloseAt(old(View()), end, closeNow, endNow)
      ensures if old(closed) then View() == old(View()) else WasClosed(old(View()), View(), end, closeNow, endNow)
      ensures packets == packetCount && bytes == totalBytes
    {
      CloseValues(View(), end, closeNow, endNow);
      ViewShaped();
      hide TrackModel.CloseAt, WasClosed, Valid, Repr;
      if !closed {
        EndTrack(end, closeNow, endNow);
      }
      return packetCount, totalBytes;
    }

    method EndTrack(end: Option<Time>, closeNow: Time, endNow: Time)
      requires Valid() && !closed
      modifies this, Repr()
      ensures Valid() && closed && fresh(Repr() - old(Repr()))
      ensures View() == TrackModel.CloseAt(old(View()), end, closeNow, endNow)
    {
      hide HeaderAt, KeyAt, Archive, FileOf, Flatten, TrackInv, Writer.Valid;
      CloseAtInv(View(), end, closeNow, endNow);
      closed := true;
      ArchiveStable(place, old(View()), View(), |segments| - 1);
      CloseSegmentAt(end, closeNow);
      endTime := if end == None then Some(endNow) else end;
    }

    function Info(): TrackInfo
      reads this
    {
      TrackInfo(cfg, startTime, endTime, segments)
    }

    lemma ViewShaped()
      requires Valid()
      ensures View().Shaped()
    {
    }

    lemma ClosedInView()
      ensures View().closed == closed
    {
    }

    /** Every upload with packets names the track's stream and the start listed for its segment. */
    lemma StorageHeaders(i: nat)
      requires Valid() && closed && i < |archive| && archive[i].status.Completed?
      ensures i < |segments|
              && HeaderSays(archive[i].status.content, cfg.ssrc, cfg.payloadType, cfg.codec, segments[i].startTime)
    {
      hide HeaderSays, HeaderAt, KeyAt, TrackInv, FileOf;
      assert archive[i] == RecordAt(place, View(), i);
      EmptyFile(View(), i);
      SegmentHeader(View(), i);
    }

    /** The bytes that really reached storage, read back segment by segment, are the packets the
        writer accepted, if and only if all of them fit the length field. */
    lemma StorageReadsBack()
      requires Valid() && closed
      ensures ReadBack(Objects(archive)) == Flatten(contents) <==> AllFit(Flatten(contents))
    {
      ArchiveObjects(place, View(), |segments|);
      ReadBackIffFits(View());
    }
  }
}
