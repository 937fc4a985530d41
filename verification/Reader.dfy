/** ReadHeader and ReadPacket as they consume an io.Reader, one field at a time. */
module BrtpReader {
  import opened GoTypes
  import opened Brtp

  class Reader {
    const data: Bytes
    var pos: nat

    ghost predicate Valid()
      reads this
    {
      pos <= |data|
    }

    ghost function Remaining(): Bytes
      requires Valid()
      reads this
    {
      data[pos..]
    }

    constructor (data: Bytes)
      ensures Valid() && Remaining() == data
    {
      this.data, pos := data, 0;
    }

    /** io.ReadFull: on a short read everything left is consumed. */
    method ReadFull(n: nat) returns (bytes: Bytes, error: Option<ReadError>)
      requires Valid()
      modifies this
      ensures Valid()
      ensures if n <= |old(Remaining())|
              then error == None && bytes == old(Remaining())[..n] && Remaining() == old(Remaining())[n..]
              else error == Some(ShortRead(|old(Remaining())|)) && Remaining() == []
    {
      var left := |data| - pos;
      if n <= left {
        bytes, error := data[pos..pos + n], None;
        pos := pos + n;
      } else {
        bytes, error := [], Some(ShortRead(left));
        pos := |data|;
      }
    }

    method ReadHeader() returns (header: Option<FileHeader>, error: Option<ReadError>)
      requires Valid()
      modifies this
      ensures Valid()
      ensures match ReadHeaderFrom(old(Remaining()))
              case Header(h, rest) => header == Some(h) && error == None && Remaining() == rest
              case HeaderError(e) => header == None && error == Some(e)
    {
      var s, short := ReadFull(HEADER_SIZE);
      if short.Some? {
        return None, short;
      }
      FromBigEndianRoundTrip(s[6..8]);
      FromBigEndianRoundTrip(s[8..12]);
      FieldWidths();
      ghost var all := old(Remaining());
      assert forall i, j | 0 <= i <= j <= HEADER_SIZE :: s[i..j] == all[i..j];
      if s[..4] != MAGIC {
        return None, Some(BadMagic);
      }
      if s[4] != FORMAT_VERSION {
        return None, Some(BadVersion);
      }
      header := Some(FileHeader(s[..4], s[4], s[5], FromBigEndian(s[6..8]), FromBigEndian(s[8..12]),
                                s[12..20], Int64Of(s[20..28]), s[28..32]));
      error := None;
    }

    method ReadPacket() returns (packet: Option<Packet>, error: Option<ReadError>)
      requires Valid()
      modifies this
      ensures Valid()
      ensures match ReadPacketFrom(old(Remaining()))
              case Read(p, rest) => packet == Some(p) && error == None && Remaining() == rest
              case PacketError(e) => packet == None && error == Some(e)
    {
      hide FromBigEndian, Int64Of;
      ghost var all := old(Remaining());
      var stamp, e1 := ReadFull(8);
      if e1.Some? {
        return None, e1;
      }
      var length, e2 := ReadFull(2);
      if e2.Some? {
        return None, e2;
      }
      assert length == all[8..10] && Remaining() == all[10..];
      var payload, e3 := ReadFull(FromBigEndian(length));
      if e3.Some? {
        return None, e3;
      }
      assert payload == all[10..10 + |payload|] && Remaining() == all[10 + |payload|..];
      packet, error := Some(Packet(payload, Int64Of(stamp))), None;
    }

    /** A reader of a whole file: the header, then packets until ReadPacket fails. */
    method ReadFile() returns (packets: seq<Packet>, error: ReadError)
      requires Valid()
      modifies this
      ensures Valid() && Decoded(packets, error) == DecodeFile(old(Remaining()))
    {
      hide ReadHeaderFrom, ReadPacketFrom, ReadPacketsFrom;
      packets := [];
      var header, headerError := ReadHeader();
      if headerError.Some? {
        return [], headerError.value;
      }
      ghost var all := ReadPacketsFrom(Remaining());
      while true
        invariant Valid()
        invariant packets + ReadPacketsFrom(Remaining()).packets == all.packets
        invariant ReadPacketsFrom(Remaining()).error == all.error
        decreases |Remaining()|
      {
        ReadPacketsStep(Remaining());
        var packet, e := ReadPacket();
        if e.Some? {
          assert packets + [] == packets;
          return packets, e.value;
        }
        packets := packets + [packet.value];
      }
    }
  }
}
