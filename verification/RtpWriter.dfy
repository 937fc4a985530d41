/** The buffered packet writer of one segment, with a flush possible between any two calls. */
module RtpWriter {
  import opened Brtp
  import opened Multipart

  class Writer {
    const writer: CountingWriteCloser
    const header: FileHeader
    var buffer: Bytes
    var headerWritten: bool
    var packetCount: int
    var totalBytes: int
    var closed: bool
    ghost var accepted: seq<Packet>
    ghost var flushed: nat // how many accepted packets have reached the sink

    ghost function Repr(): set<object> {
      {this, writer, writer.w, writer.w.upload}
    }

    ghost function Sink(): Bytes
      reads writer.w
    {
      writer.w.written
    }

    /** Flush transparency: sink and buffer together are the file of the accepted packets, and the
        sink alone is the file of a prefix of them, so it never ends inside a record. */
    ghost predicate Valid(): (valid: bool)
      reads Repr()
      ensures valid ==> writer.Valid() && header.Shaped()
    {
      && header.Shaped()
      && header.magic == MAGIC && header.version == FORMAT_VERSION
      && writer.Valid()
      && (headerWritten <==> accepted != [])
      && packetCount == |accepted|
      && totalBytes == RECORD_OVERHEAD * |accepted| + PayloadBytes(accepted)
      && flushed <= |accepted|
      && Sink() == FileOf(header, accepted[..flushed])
      && Sink() + buffer == FileOf(header, accepted)
      && (closed ==> buffer == [])
      && (writer.w.closed ==> closed)
    }

    constructor (header: FileHeader, writer: CountingWriteCloser)
      requires header.Shaped() && header.magic == MAGIC && header.version == FORMAT_VERSION
      requires writer.Valid() && writer.w.written == [] && !writer.w.closed
      ensures Valid() && !closed && accepted == []
      ensures this.writer == writer && this.header == header
    {
      this.writer, this.header := writer, header;
      buffer, headerWritten, packetCount, totalBytes, closed := [], false, 0, 0, false;
      accepted, flushed := [], 0;
    }

    method WritePacket(p: Packet) returns (ok: bool)
      requires Valid()
      modifies this
      ensures Valid() && closed == old(closed) && ok == !old(closed)
      ensures accepted == if ok then old(accepted) + [p] else old(accepted)
    {
      hide EncodeHeader, FileOf, PayloadBytes, Int64Bytes, BigEndian, CountingWriteCloser.Valid;
      if closed {
        return false;
      }
      if !headerWritten {
        buffer := buffer + EncodeHeader(header);
        headerWritten := true;
      }
      buffer := buffer + Int64Bytes(p.timestamp);
      buffer := buffer + BigEndian(|p.data| % 0x1_0000, 2);
      buffer := buffer + p.data;
      packetCount := packetCount + 1;
      totalBytes := totalBytes + |p.data| + RECORD_OVERHEAD;
      BufferedRecord(header, Sink(), old(buffer), accepted, p);
      accepted := accepted + [p];
      assert accepted[..flushed] == old(accepted)[..flushed];
      ok := true;
    }

    method Flush()
      requires Valid()
      modifies this, writer, writer.w, writer.w.upload
      ensures Valid() && closed == old(closed) && accepted == old(accepted)
      ensures buffer == [] && Sink() == FileOf(header, accepted)
      ensures writer.w.closed == old(writer.w.closed)
      ensures old(closed) ==> Sink() == old(Sink()) && writer.w.upload.status == old(writer.w.upload.status)
    {
      hide FileOf, PayloadBytes;
      if |buffer| == 0 {
        assert Sink() + [] == Sink();
        flushed := |accepted|;
        assert accepted[..flushed] == accepted;
        return;
      }
      var n, ok := writer.Write(buffer);
      buffer := [];
      flushed := |accepted|;
      assert accepted[..flushed] == accepted;
      assert Sink() + [] == Sink();
    }

    method Close()
      requires Valid()
      modifies this, writer, writer.w, writer.w.upload
      ensures Valid() && closed && accepted == old(accepted)
      ensures Sink() == FileOf(header, accepted)
      ensures writer.w.closed == old(writer.w.closed)
    {
      if closed {
        assert Sink() + [] == Sink();
        return;
      }
      Flush();
      closed := true;
    }
  }

  /** Appending the fields one after the other to the buffer extends the file by one record. */
  lemma BufferedRecord(h: FileHeader, sink: Bytes, buffer: Bytes, ps: seq<Packet>, p: Packet)
    requires h.Shaped() && sink + buffer == FileOf(h, ps)
    ensures var start := if ps == [] then buffer + EncodeHeader(h) else buffer;
            sink + (start + Int64Bytes(p.timestamp) + BigEndian(|p.data| % 0x1_0000, 2) + p.data)
              == FileOf(h, ps + [p])
    ensures PayloadBytes(ps + [p]) == PayloadBytes(ps) + |p.data|
  {
    hide EncodeHeader, EncodeRecords, PayloadBytes, BigEndian, Int64Bytes;
    FileAppend(h, ps, p);
    var start := if ps == [] then buffer + EncodeHeader(h) else buffer;
    assert sink + start == if ps == [] then EncodeHeader(h) else FileOf(h, ps);
    assert sink + (start + EncodeRecord(p)) == sink + start + EncodeRecord(p);
    assert start + EncodeRecord(p) == start + Int64Bytes(p.timestamp) + BigEndian(|p.data| % 0x1_0000, 2) + p.data;
  }
}
