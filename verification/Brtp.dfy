/** The BRTP segment file: a 32-byte header, then length-prefixed packet records. */
module Brtp {
  import opened GoTypes

  type Bytes = seq<Byte>

  const MAGIC: Bytes := [0x42, 0x52, 0x54, 0x50] // "BRTP"
  const FORMAT_VERSION: Byte := 1
  const HEADER_SIZE := 32
  const CODEC_MAX_LEN := 8
  const RECORD_OVERHEAD := 10 // 8 bytes of timestamp, 2 of length
  const MAX_PAYLOAD := 0xffff

  datatype Packet = Packet(data: Bytes, timestamp: Int64)

  datatype FileHeader = FileHeader(
    magic: Bytes,
    version: Byte,
    payloadType: Byte,
    reserved: UInt16,
    ssrc: UInt32,
    codec: Bytes,
    startTime: Int64,
    reserved2: Bytes)
  {
    /** The array lengths of the Go struct. */
    ghost predicate Shaped() {
      |magic| == 4 && |codec| == CODEC_MAX_LEN && |reserved2| == 4
    }
  }

  datatype ReadError = EOF | UnexpectedEOF | BadMagic | BadVersion

  // ---------------------------------------------------------------- big-endian fields

  function BigEndian(n: nat, width: nat): (s: Bytes)
    ensures |s| == width
  {
    if width == 0 then [] else BigEndian(n / 0x100, width - 1) + [n % 0x100]
  }

  function FromBigEndian(s: Bytes): nat {
    if s == [] then 0 else FromBigEndian(s[..|s| - 1]) * 0x100 + s[|s| - 1]
  }

  function Pow256(width: nat): nat {
    if width == 0 then 1 else 0x100 * Pow256(width - 1)
  }

  lemma {:induction false} BigEndianRoundTrip(n: nat, width: nat)
    requires n < Pow256(width)
    ensures FromBigEndian(BigEndian(n, width)) == n
  {
    if width > 0 {
      BigEndianRoundTrip(n / 0x100, width - 1);
      assert BigEndian(n, width)[..width - 1] == BigEndian(n / 0x100, width - 1);
    }
  }

  lemma {:induction false} FromBigEndianRoundTrip(s: Bytes)
    ensures FromBigEndian(s) < Pow256(|s|)
    ensures BigEndian(FromBigEndian(s), |s|) == s
  {
    if s != [] {
      FromBigEndianRoundTrip(s[..|s| - 1]);
      assert s == s[..|s| - 1] + [s[|s| - 1]];
    }
  }

  lemma FieldWidths()
    ensures Pow256(2) == 0x1_0000 && Pow256(4) == 0x1_0000_0000
    ensures Pow256(8) == 0x1_0000_0000_0000_0000
  {
    assert Pow256(1) == 0x100;
    assert Pow256(3) == 0x100_0000;
    assert Pow256(5) == 0x100_0000_0000;
    assert Pow256(6) == 0x1_0000_0000_0000;
    assert Pow256(7) == 0x100_0000_0000_0000;
  }

  /** The eight two's-complement bytes of an int64. */
  function Int64Bytes(x: Int64): (s: Bytes)
    ensures |s| == 8
  {
    BigEndian(x % 0x1_0000_0000_0000_0000, 8)
  }

  function Int64Of(s: Bytes): (x: Int64)
    requires |s| == 8
  {
    Wrap64(FromBigEndian(s))
  }

  lemma Int64RoundTrip(x: Int64)
    ensures Int64Of(Int64Bytes(x)) == x
  {
    hide BigEndian, FromBigEndian;
    FieldWidths();
    BigEndianRoundTrip(x % 0x1_0000_0000_0000_0000, 8);
  }

  lemma Int64OfRoundTrip(s: Bytes)
    requires |s| == 8
    ensures Int64Bytes(Int64Of(s)) == s
  {
    hide BigEndian, FromBigEndian;
    FieldWidths();
    FromBigEndianRoundTrip(s);
  }

  // ---------------------------------------------------------------- header

  /** What NewWriter stores: the codec name cut or zero-filled to eight bytes. */
  function NewHeader(ssrc: UInt32, payloadType: Byte, codec: Bytes, startTime: Int64): (h: FileHeader)
    ensures h.Shaped() && h.magic == MAGIC && h.version == FORMAT_VERSION
  {
    var cut := if |codec| > CODEC_MAX_LEN then codec[..CODEC_MAX_LEN] else codec;
    FileHeader(MAGIC, FORMAT_VERSION, payloadType, 0, ssrc,
               cut + seq(CODEC_MAX_LEN - |cut|, _ => 0), startTime, [0, 0, 0, 0])
  }

  function EncodeHeader(h: FileHeader): (s: Bytes)
    requires h.Shaped()
    ensures |s| == HEADER_SIZE
  {
    h.magic + [h.version, h.payloadType] + BigEndian(h.reserved, 2) + BigEndian(h.ssrc, 4)
    + h.codec + Int64Bytes(h.startTime) + h.reserved2
  }

  datatype HeaderResult = Header(header: FileHeader, rest: Bytes) | HeaderError(error: ReadError)

  function ReadHeaderFrom(s: Bytes): HeaderResult {
    if s == [] then HeaderError(EOF)
    else if |s| < HEADER_SIZE then HeaderError(UnexpectedEOF)
    else
      FromBigEndianRoundTrip(s[6..8]); FromBigEndianRoundTrip(s[8..12]); FieldWidths();
      var h := FileHeader(s[..4], s[4], s[5], FromBigEndian(s[6..8]), FromBigEndian(s[8..12]),
                          s[12..20], Int64Of(s[20..28]), s[28..32]);
      if h.magic != MAGIC then HeaderError(BadMagic)
      else if h.version != FORMAT_VERSION then HeaderError(BadVersion)
      else Header(h, s[HEADER_SIZE..])
  }

  /** Reading undoes writing: every header of the current version comes back unchanged. */
  lemma HeaderRoundTrip(h: FileHeader, rest: Bytes)
    requires h.Shaped() && h.magic == MAGIC && h.version == FORMAT_VERSION
    ensures ReadHeaderFrom(EncodeHeader(h) + rest) == Header(h, rest)
  {
    hide BigEndian, FromBigEndian, Int64Bytes, Int64Of;
    var s := EncodeHeader(h) + rest;
    FieldWidths();
    BigEndianRoundTrip(h.reserved, 2);
    BigEndianRoundTrip(h.ssrc, 4);
    Int64RoundTrip(h.startTime);
    assert s[..4] == h.magic;
    assert s[6..8] == BigEndian(h.reserved, 2);
    assert s[8..12] == BigEndian(h.ssrc, 4);
    assert s[12..20] == h.codec;
    assert s[20..28] == Int64Bytes(h.startTime);
    assert s[28..32] == h.reserved2;
    assert s[HEADER_SIZE..] == rest;
  }

  /** Writing undoes reading: ReadHeader accepts a stream exactly when it is the encoding of a
      well-formed header of the current version followed by `rest`. */
  lemma HeaderAccepted(s: Bytes, h: FileHeader, rest: Bytes)
    ensures ReadHeaderFrom(s) == Header(h, rest)
       <==> h.Shaped() && h.magic == MAGIC && h.version == FORMAT_VERSION && s == EncodeHeader(h) + rest
  {
    hide BigEndian, FromBigEndian;
    if h.Shaped() && h.magic == MAGIC && h.version == FORMAT_VERSION && s == EncodeHeader(h) + rest {
      HeaderRoundTrip(h, rest);
    }
    if ReadHeaderFrom(s) == Header(h, rest) {
      FromBigEndianRoundTrip(s[6..8]);
      FromBigEndianRoundTrip(s[8..12]);
      Int64OfRoundTrip(s[20..28]);
      assert s == s[..4] + s[4..6] + s[6..8] + s[8..12] + s[12..20] + s[20..28] + s[28..32] + s[32..];
      assert s[4..6] == [h.version, h.payloadType];
    }
  }

  // ---------------------------------------------------------------- records

  /** One record. The length field keeps only the low 16 bits of the payload length. */
  function EncodeRecord(p: Packet): (s: Bytes)
    ensures |s| == RECORD_OVERHEAD + |p.data|
  {
    Int64Bytes(p.timestamp) + BigEndian(|p.data| % 0x1_0000, 2) + p.data
  }

  function EncodeRecords(ps: seq<Packet>): Bytes {
    if ps == [] then [] else EncodeRecord(ps[0]) + EncodeRecords(ps[1..])
  }

  /** A segment file: nothing at all until the first packet, then the header and the records. */
  function FileOf(h: FileHeader, ps: seq<Packet>): Bytes
    requires h.Shaped()
  {
    if ps == [] then [] else EncodeHeader(h) + EncodeRecords(ps)
  }

  function PayloadBytes(ps: seq<Packet>): nat {
    if ps == [] then 0 else PayloadBytes(ps[..|ps| - 1]) + |ps[|ps| - 1].data|
  }

  lemma {:induction false} EncodeRecordsConcat(ps: seq<Packet>, qs: seq<Packet>)
    ensures EncodeRecords(ps + qs) == EncodeRecords(ps) + EncodeRecords(qs)
  {
    if ps == [] {
      assert ps + qs == qs;
    } else {
      assert (ps + qs)[1..] == ps[1..] + qs;
      EncodeRecordsConcat(ps[1..], qs);
    }
  }

  lemma EncodeRecordsAppend(ps: seq<Packet>, p: Packet)
    ensures EncodeRecords(ps + [p]) == EncodeRecords(ps) + EncodeRecord(p)
  {
    EncodeRecordsConcat(ps, [p]);
    assert [p][1..] == [];
    assert EncodeRecords([p]) == EncodeRecord(p) + [];
  }

  lemma {:induction false} EncodedSize(ps: seq<Packet>)
    ensures |EncodeRecords(ps)| == RECORD_OVERHEAD * |ps| + PayloadBytes(ps)
  {
    if ps != [] {
      var front := ps[..|ps| - 1];
      EncodedSize(front);
      EncodeRecordsAppend(front, ps[|ps| - 1]);
      assert front + [ps[|ps| - 1]] == ps;
    }
  }

  /** Exact size of a segment file. */
  lemma FileSize(h: FileHeader, ps: seq<Packet>)
    requires h.Shaped()
    ensures |FileOf(h, ps)| ==
            if ps == [] then 0 else HEADER_SIZE + RECORD_OVERHEAD * |ps| + PayloadBytes(ps)
  {
    EncodedSize(ps);
  }

  lemma FileAppend(h: FileHeader, ps: seq<Packet>, p: Packet)
    requires h.Shaped()
    ensures FileOf(h, ps + [p]) == (if ps == [] then EncodeHeader(h) else FileOf(h, ps)) + EncodeRecord(p)
    ensures PayloadBytes(ps + [p]) == PayloadBytes(ps) + |p.data|
  {
    hide EncodeHeader, EncodeRecord;
    EncodeRecordsAppend(ps, p);
    assert (ps + [p])[..|ps|] == ps;
  }

  // ---------------------------------------------------------------- reading records

  datatype PacketResult = Read(packet: Packet, rest: Bytes) | PacketError(error: ReadError)

  /** io.ReadFull's verdict on a field of `need` bytes when only `have < need` are left. */
  function ShortRead(have: nat): ReadError {
    if have == 0 then EOF else UnexpectedEOF
  }

  function ReadPacketFrom(s: Bytes): PacketResult {
    if |s| < 8 then PacketError(ShortRead(|s|))
    else if |s| < RECORD_OVERHEAD then PacketError(ShortRead(|s| - 8))
    else
      var length := FromBigEndian(s[8..10]);
      if |s| - RECORD_OVERHEAD < length then PacketError(ShortRead(|s| - RECORD_OVERHEAD))
      else Read(Packet(s[10..10 + length], Int64Of(s[..8])), s[10 + length..])
  }

  datatype Decoded = Decoded(packets: seq<Packet>, error: ReadError)

  /** ReadPacket repeated until it fails. */
  function ReadPacketsFrom(s: Bytes): Decoded
    decreases |s|
  {
    match ReadPacketFrom(s)
    case PacketError(e) => Decoded([], e)
    case Read(p, rest) =>
      var d := ReadPacketsFrom(rest);
      Decoded([p] + d.packets, d.error)
  }

  lemma ReadPacketsStep(s: Bytes)
    ensures match ReadPacketFrom(s)
            case PacketError(e) => ReadPacketsFrom(s) == Decoded([], e)
            case Read(p, rest) =>
              |rest| < |s| &&
              ReadPacketsFrom(s) == Decoded([p] + ReadPacketsFrom(rest).packets, ReadPacketsFrom(rest).error)
  {
  }

  /** ReadHeader, then ReadPacket until it fails. */
  function DecodeFile(s: Bytes): Decoded {
    match ReadHeaderFrom(s)
    case HeaderError(e) => Decoded([], e)
    case Header(_, rest) => ReadPacketsFrom(rest)
  }

  predicate Fits(p: Packet) {
    |p.data| <= MAX_PAYLOAD
  }

  ghost predicate AllFit(ps: seq<Packet>) {
    forall i :: 0 <= i < |ps| ==> Fits(ps[i])
  }

  /** What the reader takes for a record: the payload cut to the length field, and the overflow
      of an oversize payload left in the stream. */
  lemma RecordRead(p: Packet, rest: Bytes)
    ensures var cut := |p.data| % 0x1_0000;
            ReadPacketFrom(EncodeRecord(p) + rest)
              == Read(Packet(p.data[..cut], p.timestamp), p.data[cut..] + rest)
  {
    hide BigEndian, FromBigEndian, Int64Bytes, Int64Of;
    var s := EncodeRecord(p) + rest;
    var cut := |p.data| % 0x1_0000;
    FieldWidths();
    BigEndianRoundTrip(cut, 2);
    Int64RoundTrip(p.timestamp);
    assert s[..8] == Int64Bytes(p.timestamp);
    assert s[8..10] == BigEndian(cut, 2);
    assert s[10..10 + cut] == p.data[..cut];
    assert s[10 + cut..] == p.data[cut..] + rest;
  }

  lemma RecordRoundTrip(p: Packet, rest: Bytes)
    requires Fits(p)
    ensures ReadPacketFrom(EncodeRecord(p) + rest) == Read(p, rest)
  {
    hide ReadPacketFrom, EncodeRecord;
    RecordRead(p, rest);
    assert |p.data| % 0x1_0000 == |p.data|;
    assert p.data[..|p.data|] == p.data && p.data[|p.data|..] + rest == rest;
  }

  lemma ReadOneWritten(p: Packet, tail: Bytes)
    requires Fits(p)
    ensures var d := ReadPacketsFrom(tail);
            ReadPacketsFrom(EncodeRecord(p) + tail) == Decoded([p] + d.packets, d.error)
  {
    hide ReadPacketFrom, EncodeRecord;
    RecordRoundTrip(p, tail);
  }

  lemma {:induction false} ReadWrittenPackets(ps: seq<Packet>, rest: Bytes)
    requires AllFit(ps)
    ensures ReadPacketsFrom(EncodeRecords(ps) + rest)
            == Decoded(ps + ReadPacketsFrom(rest).packets, ReadPacketsFrom(rest).error)
  {
    hide ReadPacketsFrom, EncodeRecord;
    if ps == [] {
      assert EncodeRecords(ps) + rest == rest;
    } else {
      var tail := EncodeRecords(ps[1..]) + rest;
      assert EncodeRecords(ps) + rest == EncodeRecord(ps[0]) + tail;
      ReadOneWritten(ps[0], tail);
      ReadWrittenPackets(ps[1..], rest);
      assert ps == [ps[0]] + ps[1..];
    }
  }

  /** The first oversize packet comes back shortened, after everything before it came back intact. */
  lemma FirstOversizeIsAltered(ps: seq<Packet>, k: nat)
    requires k < |ps| && AllFit(ps[..k]) && !Fits(ps[k])
    ensures var back := ReadPacketsFrom(EncodeRecords(ps)).packets;
            |back| > k && back[..k] == ps[..k] && |back[k].data| < |ps[k].data|
  {
    hide ReadPacketFrom, EncodeRecord;
    var p, rest := ps[k], EncodeRecords(ps[k + 1..]);
    assert ps == ps[..k] + [p] + ps[k + 1..];
    EncodeRecordsConcat(ps[..k] + [p], ps[k + 1..]);
    EncodeRecordsAppend(ps[..k], p);
    assert EncodeRecords(ps) == EncodeRecords(ps[..k]) + (EncodeRecord(p) + rest);
    ReadWrittenPackets(ps[..k], EncodeRecord(p) + rest);
    RecordRead(p, rest);
  }

  /** The least index that violates AllFit. */
  lemma FirstOversize(ps: seq<Packet>) returns (k: nat)
    requires !AllFit(ps)
    ensures k < |ps| && AllFit(ps[..k]) && !Fits(ps[k])
  {
    k := 0;
    while Fits(ps[k])
      invariant k < |ps|
      invariant forall i :: 0 <= i < k ==> Fits(ps[i])
      decreases |ps| - k
    {
      if k + 1 == |ps| {
        assert AllFit(ps);
      }
      k := k + 1;
    }
  }

  /** A file with an oversize payload comes back altered at some position. */
  lemma OversizeAltersFile(h: FileHeader, ps: seq<Packet>) returns (k: nat)
    requires h.Shaped() && h.magic == MAGIC && h.version == FORMAT_VERSION && !AllFit(ps)
    ensures var back := DecodeFile(FileOf(h, ps)).packets;
            k < |ps| && k < |back| && back[k] != ps[k]
  {
    hide ReadHeaderFrom, EncodeHeader, EncodeRecord, ReadPacketFrom;
    HeaderRoundTrip(h, EncodeRecords(ps));
    k := FirstOversize(ps);
    FirstOversizeIsAltered(ps, k);
  }

  /** Round trip of a segment file, and its exact limit: the packets come back as written if and
      only if every payload length fits the 16-bit field. */
  lemma FileRoundTrip(h: FileHeader, ps: seq<Packet>)
    requires h.Shaped() && h.magic == MAGIC && h.version == FORMAT_VERSION
    ensures DecodeFile(FileOf(h, ps)).packets == ps <==> AllFit(ps)
    ensures AllFit(ps) ==> DecodeFile(FileOf(h, ps)).error == EOF
  {
    if ps != [] {
      HeaderRoundTrip(h, EncodeRecords(ps));
      if AllFit(ps) {
        ReadWrittenPackets(ps, []);
        assert EncodeRecords(ps) + [] == EncodeRecords(ps);
        assert ps + [] == ps;
      } else {
        var k := OversizeAltersFile(h, ps);
      }
    }
  }

  /** The smallest payload that does not survive: 65536 zero bytes come back as an empty packet. */
  lemma OversizeExample()
    ensures var p := Packet(seq(0x1_0000, _ => 0), 0);
            !Fits(p) && ReadPacketFrom(EncodeRecord(p)) == Read(Packet([], 0), p.data)
  {
    var p := Packet(seq(0x1_0000, _ => 0), 0);
    RecordRead(p, []);
    assert EncodeRecord(p) + [] == EncodeRecord(p);
    assert p.data[0..] + [] == p.data;
  }

  // ---------------------------------------------------------------- truncated files

  lemma {:induction false} WholeRecordsWithin(ps: seq<Packet>, n: nat) returns (m: nat)
    requires n <= |EncodeRecords(ps)|
    ensures m <= |ps| && |EncodeRecords(ps[..m])| <= n
    ensures m < |ps| ==> n < |EncodeRecords(ps[..m + 1])|
  {
    m := 0;
    while m < |ps| && |EncodeRecords(ps[..m + 1])| <= n
      invariant m <= |ps| && |EncodeRecords(ps[..m])| <= n
    {
      m := m + 1;
    }
  }

  lemma ReadNothing()
    ensures ReadPacketsFrom([]) == Decoded([], EOF)
  {
  }

  /** Reading a strict prefix of one record reports a clean EOF exactly when the cut falls
      between two fields. */
  lemma CutRecord(p: Packet, r: nat)
    requires Fits(p) && r < |EncodeRecord(p)|
    ensures ReadPacketFrom(EncodeRecord(p)[..r])
            == PacketError(if r == 0 || r == 8 || r == RECORD_OVERHEAD then EOF else UnexpectedEOF)
  {
    hide BigEndian, FromBigEndian, Int64Bytes, Int64Of;
    var s := EncodeRecord(p)[..r];
    if r >= RECORD_OVERHEAD {
      FieldWidths();
      BigEndianRoundTrip(|p.data|, 2);
      assert EncodeRecord(p)[8..10] == BigEndian(|p.data|, 2);
      assert s[8..10] == EncodeRecord(p)[8..10];
    }
  }

  /** A cut behind the header leaves the header, whole records, and the beginning of the next record. */
  lemma CutFile(h: FileHeader, ps: seq<Packet>, cut: nat, m: nat)
    requires h.Shaped() && ps != [] && HEADER_SIZE <= cut <= |FileOf(h, ps)|
    requires m <= |ps| && HEADER_SIZE + |EncodeRecords(ps[..m])| <= cut
    requires m < |ps| ==> cut < HEADER_SIZE + |EncodeRecords(ps[..m + 1])|
    ensures var left := cut - HEADER_SIZE - |EncodeRecords(ps[..m])|;
            && (m < |ps| ==> left < |EncodeRecord(ps[m])|) && (m == |ps| ==> left == 0)
            && FileOf(h, ps)[..cut]
               == EncodeHeader(h) + (EncodeRecords(ps[..m]) + if m < |ps| then EncodeRecord(ps[m])[..left] else [])
  {
    FileParts(h, ps);
    hide *;
    if m < |ps| {
      RecordsAt(ps, m);
      TakeInto(EncodeHeader(h), EncodeRecords(ps[..m]), EncodeRecord(ps[m]), EncodeRecords(ps[m + 1..]), cut);
    } else {
      assert ps[..m] == ps;
      assert FileOf(h, ps)[..cut] == FileOf(h, ps);
      assert EncodeRecords(ps) + [] == EncodeRecords(ps);
    }
  }

  lemma FileParts(h: FileHeader, ps: seq<Packet>)
    requires h.Shaped() && ps != []
    ensures FileOf(h, ps) == EncodeHeader(h) + EncodeRecords(ps)
  {
    hide EncodeHeader, EncodeRecords;
  }

  /** The records of a file, seen from record `m`. */
  lemma RecordsAt(ps: seq<Packet>, m: nat)
    requires m < |ps|
    ensures EncodeRecords(ps) == EncodeRecords(ps[..m]) + (EncodeRecord(ps[m]) + EncodeRecords(ps[m + 1..]))
    ensures |EncodeRecords(ps[..m + 1])| == |EncodeRecords(ps[..m])| + |EncodeRecord(ps[m])|
  {
    hide EncodeRecord, EncodeRecords;
    assert ps[..m + 1] == ps[..m] + [ps[m]] && ps == ps[..m + 1] + ps[m + 1..];
    EncodeRecordsAppend(ps[..m], ps[m]);
    EncodeRecordsConcat(ps[..m + 1], ps[m + 1..]);
    Associates(EncodeRecords(ps[..m]), EncodeRecord(ps[m]), EncodeRecords(ps[m + 1..]));
  }

  lemma Associates<T>(a: seq<T>, b: seq<T>, c: seq<T>)
    ensures (a + b) + c == a + (b + c)
  {
  }

  lemma TakeInto(a: Bytes, b: Bytes, c: Bytes, d: Bytes, n: nat)
    requires |a| + |b| <= n <= |a| + |b| + |c|
    ensures (a + (b + (c + d)))[..n] == a + (b + c[..n - |a| - |b|])
  {
    Associates(a, b, c + d);
    assert ((a + b) + (c + d))[..n] == (a + b) + (c + d)[..n - |a| - |b|];
    assert (c + d)[..n - |a| - |b|] == c[..n - |a| - |b|];
    Associates(a, b, c[..n - |a| - |b|]);
  }

  /** The packets end where the record is cut. */
  lemma ReadTail(ps: seq<Packet>, m: nat, left: nat)
    requires AllFit(ps) && m <= |ps| && if m < |ps| then left < |EncodeRecord(ps[m])| else left == 0
    ensures ReadPacketsFrom(if m < |ps| then EncodeRecord(ps[m])[..left] else [])
            == Decoded([], if left == 0 || left == 8 || left == RECORD_OVERHEAD then EOF else UnexpectedEOF)
  {
    hide EncodeRecord, ReadPacketFrom;
    if m < |ps| {
      CutRecord(ps[m], left);
    } else {
      ReadNothing();
    }
  }

  lemma AllFitPrefix(ps: seq<Packet>, m: nat)
    requires AllFit(ps) && m <= |ps|
    ensures AllFit(ps[..m])
  {
  }

  lemma ReadCutFile(h: FileHeader, ps: seq<Packet>, tail: Bytes)
    requires h.Shaped() && h.magic == MAGIC && h.version == FORMAT_VERSION && AllFit(ps)
    ensures var rest := ReadPacketsFrom(tail);
            DecodeFile(EncodeHeader(h) + (EncodeRecords(ps) + tail)) == Decoded(ps + rest.packets, rest.error)
  {
    hide ReadPacketFrom, ReadHeaderFrom, EncodeRecord, EncodeRecords, EncodeHeader, ReadPacketsFrom;
    HeaderRoundTrip(h, EncodeRecords(ps) + tail);
    ReadWrittenPackets(ps, tail);
  }

  /** Prefix safety: of a file cut anywhere after its header, the reader returns exactly the packets
      whose records are whole, then an error. The error is a clean EOF exactly when the cut falls
      on a field boundary, so EOF alone does not prove that the file is complete. */
  lemma PrefixSafety(h: FileHeader, ps: seq<Packet>, cut: nat, m: nat)
    requires h.Shaped() && h.magic == MAGIC && h.version == FORMAT_VERSION && ps != [] && AllFit(ps)
    requires HEADER_SIZE <= cut <= |FileOf(h, ps)|
    requires m <= |ps| && HEADER_SIZE + |EncodeRecords(ps[..m])| <= cut
    requires m < |ps| ==> cut < HEADER_SIZE + |EncodeRecords(ps[..m + 1])|
    ensures var left := cut - HEADER_SIZE - |EncodeRecords(ps[..m])|;
            DecodeFile(FileOf(h, ps)[..cut])
              == Decoded(ps[..m],
                         if left == 0 || left == 8 || left == RECORD_OVERHEAD then EOF else UnexpectedEOF)
  {
    hide *;
    var left := cut - HEADER_SIZE - |EncodeRecords(ps[..m])|;
    CutFile(h, ps, cut, m);
    AllFitPrefix(ps, m);
    ReadTail(ps, m, left);
    ReadCutFile(h, ps[..m], if m < |ps| then EncodeRecord(ps[m])[..left] else []);
    assert ps[..m] + [] == ps[..m];
  }

  /** Every cut of a valid file yields a prefix of what was written, never an altered packet. */
  lemma TruncationNeverInvents(h: FileHeader, ps: seq<Packet>, cut: nat)
    requires h.Shaped() && h.magic == MAGIC && h.version == FORMAT_VERSION && ps != [] && AllFit(ps)
    requires cut <= |FileOf(h, ps)|
    ensures DecodeFile(FileOf(h, ps)[..cut]).packets <= ps
    ensures DecodeFile(FileOf(h, ps)[..cut]).error in {EOF, UnexpectedEOF}
  {
    if cut >= HEADER_SIZE {
      var m := WholeRecordsWithin(ps, cut - HEADER_SIZE);
      PrefixSafety(h, ps, cut, m);
    }
  }

  // ---------------------------------------------------------------- byte layout

  /** The number in two, four and eight bytes, most significant first. */
  function Number2(s: Bytes): nat
    requires |s| == 2
  {
    s[0] as int * 0x100 + s[1] as int
  }

  function Number4(s: Bytes): nat
    requires |s| == 4
  {
    Number2(s[..2]) * 0x1_0000 + Number2(s[2..])
  }

  function Number8(s: Bytes): nat
    requires |s| == 8
  {
    Number4(s[..4]) * 0x1_0000_0000 + Number4(s[4..])
  }

  /** A signed number in eight bytes: two's complement. */
  function Signed8(s: Bytes): int
    requires |s| == 8
  {
    if s[0] >= 0x80 then Number8(s) - 0x1_0000_0000_0000_0000 else Number8(s)
  }

  lemma {:induction false} SplitNumber(s: Bytes, t: Bytes)
    ensures FromBigEndian(s + t) == FromBigEndian(s) * Pow256(|t|) + FromBigEndian(t)
  {
    if t == [] {
      assert s + t == s;
    } else {
      var front, last := t[..|t| - 1], t[|t| - 1];
      assert (s + t)[..|s + t| - 1] == s + front;
      SplitNumber(s, front);
      Regroup(FromBigEndian(s), Pow256(|front|), FromBigEndian(front), last);
    }
  }

  lemma Regroup(a: nat, b: nat, c: nat, d: nat)
    ensures (a * b + c) * 0x100 + d == a * (0x100 * b) + (c * 0x100 + d)
  {
    assert (a * b) * 0x100 == a * (0x100 * b);
  }

  lemma TwoBytes(s: Bytes)
    requires |s| == 2
    ensures FromBigEndian(s) == Number2(s)
  {
    assert s[..1][..0] == [] && s[..1] == [s[0]];
    assert FromBigEndian([s[0]]) == s[0];
  }

  lemma FourBytes(s: Bytes)
    requires |s| == 4
    ensures FromBigEndian(s) == Number4(s)
  {
    TwoBytes(s[..2]);
    TwoBytes(s[2..]);
    hide FromBigEndian;
    FieldWidths();
    SplitNumber(s[..2], s[2..]);
    assert s == s[..2] + s[2..];
  }

  lemma EightBytes(s: Bytes)
    requires |s| == 8
    ensures FromBigEndian(s) == Number8(s)
  {
    hide FromBigEndian, Number4;
    FourBytes(s[..4]);
    FourBytes(s[4..]);
    FieldWidths();
    SplitNumber(s[..4], s[4..]);
    assert s == s[..4] + s[4..];
  }

  lemma SignedBytes(x: Int64)
    ensures Signed8(Int64Bytes(x)) == x
  {
    hide BigEndian, FromBigEndian;
    var s := Int64Bytes(x);
    FieldWidths();
    BigEndianRoundTrip(x % 0x1_0000_0000_0000_0000, 8);
    EightBytes(s);
  }

  lemma HeaderSlices(h: FileHeader)
    requires h.Shaped()
    ensures var s := EncodeHeader(h);
            && s[..4] == h.magic && s[4] == h.version && s[5] == h.payloadType
            && s[6..8] == BigEndian(h.reserved, 2) && s[8..12] == BigEndian(h.ssrc, 4)
            && s[12..20] == h.codec && s[20..28] == Int64Bytes(h.startTime) && s[28..32] == h.reserved2
  {
    hide BigEndian, Int64Bytes;
  }

  /** Where each field of a header lies in the file, byte by byte. */
  lemma HeaderLayout(h: FileHeader)
    requires h.Shaped()
    ensures var s := EncodeHeader(h);
            && |s| == 32 && s[..4] == h.magic && s[4] == h.version && s[5] == h.payloadType
            && Number2(s[6..8]) == h.reserved && Number4(s[8..12]) == h.ssrc
            && s[12..20] == h.codec && Signed8(s[20..28]) == h.startTime && s[28..32] == h.reserved2
  {
    HeaderSlices(h);
    hide *;
    FieldWidths();
    BigEndianRoundTrip(h.reserved, 2);
    BigEndianRoundTrip(h.ssrc, 4);
    TwoBytes(BigEndian(h.reserved, 2));
    FourBytes(BigEndian(h.ssrc, 4));
    SignedBytes(h.startTime);
  }

  /** A record: eight bytes of timestamp, two of length, the payload. */
  lemma RecordLayout(p: Packet)
    ensures var s := EncodeRecord(p);
            && |s| == 10 + |p.data| && Signed8(s[..8]) == p.timestamp
            && Number2(s[8..10]) == |p.data| % 65536 && s[10..] == p.data
  {
    hide BigEndian, FromBigEndian, Int64Bytes, Number2, Signed8;
    var s := EncodeRecord(p);
    FieldWidths();
    BigEndianRoundTrip(|p.data| % 0x1_0000, 2);
    TwoBytes(BigEndian(|p.data| % 0x1_0000, 2));
    SignedBytes(p.timestamp);
    assert s[..8] == Int64Bytes(p.timestamp);
    assert s[8..10] == BigEndian(|p.data| % 0x1_0000, 2);
  }

  /** Which error a header is refused with: too short, wrong magic ("BRTP" expected), wrong version. */
  lemma HeaderRefused(s: Bytes)
    ensures s == [] ==> ReadHeaderFrom(s) == HeaderError(EOF)
    ensures 0 < |s| < 32 ==> ReadHeaderFrom(s) == HeaderError(UnexpectedEOF)
    ensures |s| >= 32 && s[..4] != [0x42, 0x52, 0x54, 0x50] ==> ReadHeaderFrom(s) == HeaderError(BadMagic)
    ensures |s| >= 32 && s[..4] == [0x42, 0x52, 0x54, 0x50] && s[4] != 1 ==> ReadHeaderFrom(s) == HeaderError(BadVersion)
  {
    hide FromBigEndian, Int64Of;
  }

  // ---------------------------------------------------------------- what a new header says

  /** The header of a file names the stream: its source, payload type and codec, cut or filled with zeros to
      eight bytes, and the start of the segment in whole milliseconds. */
  ghost predicate HeaderSays(file: Bytes, ssrc: UInt32, payloadType: Byte, codec: Bytes, startNanoseconds: int) {
    var r := ReadHeaderFrom(file);
    && r.Header? && r.header.Shaped()
    && r.header.ssrc == ssrc && r.header.payloadType == payloadType
    && r.header.reserved == 0 && r.header.reserved2 == [0, 0, 0, 0]
    && (forall k :: 0 <= k < 8 ==> r.header.codec[k] == if k < |codec| then codec[k] else 0)
    && (-0x8000_0000_0000_0000 <= startNanoseconds / 1_000_000 < 0x8000_0000_0000_0000 ==>
          r.header.startTime * 1_000_000 <= startNanoseconds < (r.header.startTime + 1) * 1_000_000)
  }

  lemma NewHeaderSays(ssrc: UInt32, payloadType: Byte, codec: Bytes, start: int, ps: seq<Packet>)
    requires ps != []
    ensures HeaderSays(FileOf(NewHeader(ssrc, payloadType, codec, Wrap64(start / 1_000_000)), ps), ssrc, payloadType, codec, start)
  {
    hide EncodeHeader, ReadHeaderFrom, EncodeRecords;
    HeaderRoundTrip(NewHeader(ssrc, payloadType, codec, Wrap64(start / 1_000_000)), EncodeRecords(ps));
  }
}
