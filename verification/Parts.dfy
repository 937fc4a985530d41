/** Cutting a recording of a given length into export parts, in Go's integer widths. */
module Parts {
  import opened GoTypes

  const SECOND := 1_000_000_000
  const MILLISECOND := 1_000_000
  const MAX_INT32 := 0x7fff_ffff
  const MAX_INT64 := 0x7fff_ffff_ffff_ffff

  datatype RecordingPart = RecordingPart(
    index: Int32, key: string, startOffsetMs: int, endOffsetMs: int, durationMs: int, partLabel: string)

  function Milliseconds(d: int): int {
    Quo(d, MILLISECOND)
  }

  function PartName(index: Int32): string {
    SprintfPadded(4, index) + ".mp4"
  }

  function PartLabel(prefix: string, index: int): string {
    prefix + " Part " + (if index >= 0 then Decimal(index) else "-" + Decimal(-index))
  }

  /** A part between two offsets in nanoseconds. */
  function PartBetween(index: Int32, keyPrefix: string, labelPrefix: string, start: Int64, end: Int64): RecordingPart {
    RecordingPart(index, keyPrefix + PartName(index), Milliseconds(start), Milliseconds(end),
                  Milliseconds(Wrap64(end - start)), PartLabel(labelPrefix, index))
  }

  /** The `partCount` of buildParts; a recording without length still gets one part. */
  function PartCount(duration: Int64, partDuration: Int64): (n: int)
    requires partDuration > 0
    ensures n >= 1
  {
    var n := Quo(duration, partDuration) + if Rem(duration, partDuration) != 0 then 1 else 0;
    if n <= 0 then 1 else n
  }

  /** Part `i`, counted from zero, with every intermediate result in its Go type. */
  function PartAt(duration: Int64, partDuration: Int64, keyPrefix: string, labelPrefix: string, i: nat): RecordingPart {
    var start := Wrap64(i * partDuration);
    var next := Wrap64(start + partDuration);
    PartBetween(Wrap32(i + 1), keyPrefix, labelPrefix, start, if next > duration then duration else next)
  }

  function AllParts(duration: Int64, partDuration: Int64, keyPrefix: string, labelPrefix: string, n: nat): (parts: seq<RecordingPart>)
    ensures |parts| == n
    ensures forall i :: 0 <= i < n ==> parts[i] == PartAt(duration, partDuration, keyPrefix, labelPrefix, i)
  {
    if n == 0 then []
    else AllParts(duration, partDuration, keyPrefix, labelPrefix, n - 1)
         + [PartAt(duration, partDuration, keyPrefix, labelPrefix, n - 1)]
  }

  /** The parts of a recording; none when the part length is not positive. */
  function PartsOf(duration: Int64, partDurationSec: Int32, keyPrefix: string, labelPrefix: string): seq<RecordingPart> {
    if partDurationSec <= 0 then []
    else
      var pd := partDurationSec * SECOND;
      AllParts(duration, pd, keyPrefix, labelPrefix, PartCount(duration, pd))
  }

  // ---------------------------------------------------------------- names

  /** The prefix, the number in at least four digits and no more zeros than that takes, and the extension. */
  ghost predicate NumberedKey(key: string, keyPrefix: string, n: int) {
    exists d :: Denotes(d, n) && key == keyPrefix + d + ".mp4" && |d| >= 4 && (|d| > 4 ==> d[0] != '0')
  }

  /** The prefix, the word, and the number. */
  ghost predicate NumberedLabel(text: string, labelPrefix: string, n: int) {
    exists d :: Denotes(d, n) && text == labelPrefix + " Part " + d && (|d| > 1 ==> d[0] != '0')
  }

  /** Every part is named after its position. */
  ghost predicate Named(parts: seq<RecordingPart>, keyPrefix: string, labelPrefix: string) {
    forall i :: 0 <= i < |parts| ==>
      NumberedKey(parts[i].key, keyPrefix, i + 1) && NumberedLabel(parts[i].partLabel, labelPrefix, i + 1)
  }

  lemma NameOfIndex(index: Int32, keyPrefix: string, labelPrefix: string)
    requires index >= 0
    ensures NumberedKey(keyPrefix + PartName(index), keyPrefix, index)
    ensures NumberedLabel(PartLabel(labelPrefix, index), labelPrefix, index)
  {
    hide SprintfPadded, Decimal;
    PaddedRoundTrip(4, index);
    PaddedShape(4, index);
    DecimalRoundTrip(index);
    DecimalShape(index);
    var d, e := SprintfPadded(4, index), Decimal(index);
    assert Denotes(d, index) && Denotes(e, index);
    assert keyPrefix + (d + ".mp4") == keyPrefix + d + ".mp4";
  }

  /** A key under one prefix names one part. */
  lemma KeyNamesOnePart(key: string, keyPrefix: string, n: int, m: int)
    requires NumberedKey(key, keyPrefix, n) && NumberedKey(key, keyPrefix, m)
    ensures n == m
  {
    hide Denotes;
    var d :| Denotes(d, n) && key == keyPrefix + d + ".mp4";
    var e :| Denotes(e, m) && key == keyPrefix + e + ".mp4";
    assert |d| == |e|;
    assert d == key[|keyPrefix|..|keyPrefix| + |d|] == e;
    assert DecimalValue(d) == n && DecimalValue(e) == m by { Denoted(d, n); Denoted(e, m); }
  }

  lemma Denoted(d: string, n: int)
    requires Denotes(d, n)
    ensures DecimalValue(d) == n
  {
  }

  /** Parts named after their positions have different keys. */
  lemma NamedApart(parts: seq<RecordingPart>, keyPrefix: string, labelPrefix: string, i: nat, j: nat)
    requires Named(parts, keyPrefix, labelPrefix) && i < |parts| && j < |parts| && parts[i].key == parts[j].key
    ensures i == j
  {
    hide NumberedKey, NumberedLabel;
    KeyNamesOnePart(parts[i].key, keyPrefix, i + 1, j + 1);
  }

  lemma PartsNamed(duration: Int64, partDurationSec: Int32, keyPrefix: string, labelPrefix: string)
    requires |PartsOf(duration, partDurationSec, keyPrefix, labelPrefix)| <= MAX_INT32
    ensures Named(PartsOf(duration, partDurationSec, keyPrefix, labelPrefix), keyPrefix, labelPrefix)
  {
    hide PartCount, PartName, PartLabel, NumberedKey, NumberedLabel, Wrap64, Wrap32, Milliseconds;
    var parts := PartsOf(duration, partDurationSec, keyPrefix, labelPrefix);
    forall i | 0 <= i < |parts|
      ensures NumberedKey(parts[i].key, keyPrefix, i + 1) && NumberedLabel(parts[i].partLabel, labelPrefix, i + 1)
    {
      WrapIdentity(i + 1);
      assert parts[i] == PartAt(duration, partDurationSec * SECOND, keyPrefix, labelPrefix, i);
      NameOfIndex(i + 1, keyPrefix, labelPrefix);
    }
  }

  // ---------------------------------------------------------------- the loop

  lemma NothingIsOnePart(duration: Int64, partDurationSec: Int32)
    ensures partDurationSec > 0 && duration <= 0 ==> PartCount(duration, partDurationSec * SECOND) == 1
  {
  }

  /** What the parts are, by name and by extent. */
  lemma PartsLaw(duration: Int64, partDurationSec: Int32, keyPrefix: string, labelPrefix: string)
    ensures var parts := PartsOf(duration, partDurationSec, keyPrefix, labelPrefix);
            && (partDurationSec <= 0 <==> parts == [])
            && (partDurationSec > 0 && duration <= 0 ==> |parts| == 1)
            && (|parts| <= MAX_INT32 ==> Named(parts, keyPrefix, labelPrefix))
            && (partDurationSec > 0 && duration > 0 && NoOverflow(|parts|, partDurationSec * SECOND) ==>
                  Tiles(parts, duration, partDurationSec))
  {
    NothingIsOnePart(duration, partDurationSec);
    hide Tiles, Named, PartCount;
    if partDurationSec > 0 && duration > 0 {
      TilingIff(duration, partDurationSec, keyPrefix, labelPrefix);
    }
    if |PartsOf(duration, partDurationSec, keyPrefix, labelPrefix)| <= MAX_INT32 {
      PartsNamed(duration, partDurationSec, keyPrefix, labelPrefix);
    }
  }

  method BuildParts(duration: Int64, partDurationSec: Int32, keyPrefix: string, labelPrefix: string)
    returns (parts: seq<RecordingPart>)
    ensures parts == PartsOf(duration, partDurationSec, keyPrefix, labelPrefix)
    ensures partDurationSec <= 0 <==> parts == []
    ensures partDurationSec > 0 && duration <= 0 ==> |parts| == 1
    ensures |parts| <= MAX_INT32 ==> Named(parts, keyPrefix, labelPrefix)
    ensures partDurationSec > 0 && duration > 0 && NoOverflow(|parts|, partDurationSec * SECOND) ==>
              Tiles(parts, duration, partDurationSec)
  {
    PartsLaw(duration, partDurationSec, keyPrefix, labelPrefix);
    hide Tiles, Named, NoOverflow;
    hide Quo, Rem;
    if partDurationSec <= 0 {
      return [];
    }
    var partDuration: Int64 := partDurationSec * SECOND;
    var partCount := Quo(duration, partDuration);
    if Rem(duration, partDuration) != 0 {
      partCount := partCount + 1;
    }
    if partCount <= 0 {
      partCount := 1;
    }
    hide PartBetween, Wrap64, Wrap32;
    assert partCount == PartCount(duration, partDuration);
    hide PartCount;
    parts := [];
    for i := 0 to partCount
      invariant parts == AllParts(duration, partDuration, keyPrefix, labelPrefix, i)
    {
      var part := NextPart(duration, partDuration, keyPrefix, labelPrefix, i);
      parts := parts + [part];
    }
  }

  /** The body of the loop. */
  method NextPart(duration: Int64, partDuration: Int64, keyPrefix: string, labelPrefix: string, i: nat)
    returns (part: RecordingPart)
    ensures part == PartAt(duration, partDuration, keyPrefix, labelPrefix, i)
  {
    hide PartBetween, Wrap64, Wrap32;
    var startOffset := Wrap64(i * partDuration);
    var endOffset := Wrap64(startOffset + partDuration);
    if endOffset > duration {
      endOffset := duration;
    }
    part := PartBetween(Wrap32(i + 1), keyPrefix, labelPrefix, startOffset, endOffset);
  }

  // ---------------------------------------------------------------- tiling

  function SumDurations(parts: seq<RecordingPart>): int {
    if parts == [] then 0 else SumDurations(parts[..|parts| - 1]) + parts[|parts| - 1].durationMs
  }

  /** The parts cut [0, duration) into consecutive pieces, numbered from one, without drift. */
  ghost predicate Tiles(parts: seq<RecordingPart>, duration: int, partDurationSec: int) {
    && parts != []
    && (|parts| - 1) * (partDurationSec * SECOND) < duration <= |parts| * (partDurationSec * SECOND)
    && (forall i :: 0 <= i < |parts| ==> parts[i].index == i + 1)
    && (forall i :: 0 <= i < |parts| ==> parts[i].startOffsetMs == i * (partDurationSec * 1000))
    && (forall i :: 0 <= i < |parts| ==> parts[i].durationMs == parts[i].endOffsetMs - parts[i].startOffsetMs)
    && (forall i :: 0 <= i < |parts| - 1 ==> parts[i].endOffsetMs == parts[i + 1].startOffsetMs)
    && parts[|parts| - 1].endOffsetMs == duration / MILLISECOND
    && SumDurations(parts) == duration / MILLISECOND
  }

  /** What keeps every intermediate result inside its type. */
  predicate NoOverflow(count: int, partDuration: int) {
    count <= MAX_INT32 && count * partDuration <= MAX_INT64
  }

  /** The part count is the length divided by the part length, rounded up. */
  lemma CountBounds(duration: Int64, partDuration: Int64)
    requires duration > 0 && partDuration > 0
    ensures var n := PartCount(duration, partDuration);
            (n - 1) * partDuration < duration <= n * partDuration
  {
    var q, r := duration / partDuration, duration % partDuration;
    assert duration == q * partDuration + r;
    assert (q + 1) * partDuration == q * partDuration + partDuration;
    assert (q - 1) * partDuration == q * partDuration - partDuration;
  }

  lemma WrapIdentity(x: int)
    ensures -0x8000_0000_0000_0000 <= x <= MAX_INT64 ==> Wrap64(x) == x
    ensures -0x8000_0000 <= x <= MAX_INT32 ==> Wrap32(x) == x
    ensures MAX_INT64 < x <= 2 * MAX_INT64 ==> Wrap64(x) < 0
    ensures x == MAX_INT32 + 1 ==> Wrap32(x) < 0
  {
  }

  lemma MultipleOrder(i: int, j: int, m: int)
    requires m > 0 && i <= j
    ensures i * m <= j * m
  {
  }

  /** A part whose successor offset fits int64 runs from i * pd to the earlier of (i + 1) * pd and the end. */
  lemma ExactPart(duration: Int64, partDurationSec: Int32, keyPrefix: string, labelPrefix: string, i: nat)
    requires partDurationSec > 0 && i < MAX_INT32
    requires (i + 1) * (partDurationSec * SECOND) <= MAX_INT64 && i * (partDurationSec * SECOND) < duration
    ensures var pd := partDurationSec * SECOND;
            var p := PartAt(duration, pd, keyPrefix, labelPrefix, i);
            && p.index == i + 1
            && p.startOffsetMs == i * (partDurationSec * 1000)
            && p.endOffsetMs == (if (i + 1) * pd > duration then duration / MILLISECOND else (i + 1) * (partDurationSec * 1000))
            && p.durationMs == p.endOffsetMs - p.startOffsetMs
  {
    hide PartName, PartLabel, Wrap64, Wrap32, Milliseconds;
    var pd, ms := partDurationSec * SECOND, partDurationSec * 1000;
    Scale(i, partDurationSec);
    Scale(i + 1, partDurationSec);
    OneMore(i, pd);
    OneMore(i, ms);
    var (start, next) := (i * pd, (i + 1) * pd);
    var end := if next > duration then duration else next;
    WrapIdentity(start);
    WrapIdentity(next);
    WrapIdentity(i + 1);
    WrapIdentity(end - start);
    MultipleOrder(0, i, ms);
    WholeMilliseconds(i * ms);
    WholeMilliseconds((i + 1) * ms);
    DropWhole(end, i * ms);
    MillisecondsOf(end);
    MillisecondsOf(end - start);
    WholeQuotient((i + 1) * ms);
  }

  lemma Scale(i: int, sec: int)
    ensures i * (sec * SECOND) == (i * (sec * 1000)) * MILLISECOND
  {
    assert sec * SECOND == (sec * 1000) * MILLISECOND;
    Associate(i, sec * 1000, MILLISECOND);
  }

  lemma Associate(a: int, b: int, c: int)
    ensures a * (b * c) == (a * b) * c
  {
  }

  lemma MillisecondsOf(d: int)
    requires d >= 0
    ensures Milliseconds(d) == d / MILLISECOND
  {
  }

  lemma WholeQuotient(ms: int)
    ensures (ms * MILLISECOND) / MILLISECOND == ms
  {
  }

  lemma WholeMilliseconds(ms: nat)
    ensures Milliseconds(ms * MILLISECOND) == ms
  {
  }

  lemma DropWhole(d: int, ms: int)
    ensures (d - ms * MILLISECOND) / MILLISECOND == d / MILLISECOND - ms
  {
  }

  /** Consecutive parts add up to where the last one ends. */
  lemma {:induction false} Telescope(parts: seq<RecordingPart>)
    requires parts != [] && parts[0].startOffsetMs == 0
    requires forall i :: 0 <= i < |parts| ==> parts[i].durationMs == parts[i].endOffsetMs - parts[i].startOffsetMs
    requires forall i :: 0 <= i < |parts| - 1 ==> parts[i].endOffsetMs == parts[i + 1].startOffsetMs
    ensures SumDurations(parts) == parts[|parts| - 1].endOffsetMs
  {
    if |parts| > 1 {
      var front := parts[..|parts| - 1];
      assert front[|front| - 1].endOffsetMs == parts[|parts| - 1].startOffsetMs;
      Telescope(front);
    } else {
      assert parts[..0] == [];
    }
  }

  lemma TilesWithoutOverflow(duration: Int64, partDurationSec: Int32, keyPrefix: string, labelPrefix: string)
    requires duration > 0 && partDurationSec > 0
    requires NoOverflow(PartCount(duration, partDurationSec * SECOND), partDurationSec * SECOND)
    ensures Tiles(PartsOf(duration, partDurationSec, keyPrefix, labelPrefix), duration, partDurationSec)
  {
    hide PartCount, PartAt;
    var pd, ms := partDurationSec * SECOND, partDurationSec * 1000;
    var n := PartCount(duration, pd);
    var parts := PartsOf(duration, partDurationSec, keyPrefix, labelPrefix);
    CountBounds(duration, pd);
    forall i | 0 <= i < n
      ensures parts[i].index == i + 1 && parts[i].startOffsetMs == i * ms
      ensures parts[i].durationMs == parts[i].endOffsetMs - parts[i].startOffsetMs
      ensures parts[i].endOffsetMs == if i < n - 1 then (i + 1) * ms else duration / MILLISECOND
    {
      MultipleOrder(i + 1, n, pd);
      MultipleOrder(i, n - 1, pd);
      ExactPart(duration, partDurationSec, keyPrefix, labelPrefix, i);
      if i < n - 1 {
        MultipleOrder(i + 1, n - 1, pd);
      } else {
        Scale(n, partDurationSec);
        WholeQuotient(n * ms);
      }
    }
    Telescope(parts);
  }

  /** A part count beyond int32 leaves an index that is not its position. */
  lemma IndexOverflowBreaksTiling(duration: Int64, partDurationSec: Int32, keyPrefix: string, labelPrefix: string)
    requires partDurationSec > 0 && PartCount(duration, partDurationSec * SECOND) > MAX_INT32
    ensures !Tiles(PartsOf(duration, partDurationSec, keyPrefix, labelPrefix), duration, partDurationSec)
  {
    hide PartCount, Wrap32, Wrap64, Milliseconds, PartName, PartLabel;
    var parts := PartsOf(duration, partDurationSec, keyPrefix, labelPrefix);
    WrapIdentity(MAX_INT32 + 1);
    assert parts[MAX_INT32].index != MAX_INT32 + 1;
  }

  /** An end offset beyond int64 turns negative and ends the last part before it starts. */
  lemma OffsetOverflowBreaksTiling(duration: Int64, partDurationSec: Int32, keyPrefix: string, labelPrefix: string)
    requires duration > 0 && partDurationSec > 0
    requires PartCount(duration, partDurationSec * SECOND) * (partDurationSec * SECOND) > MAX_INT64
    ensures !Tiles(PartsOf(duration, partDurationSec, keyPrefix, labelPrefix), duration, partDurationSec)
  {
    hide PartCount, Wrap32, Wrap64, PartName, PartLabel, Tiles, Milliseconds;
    var pd := partDurationSec * SECOND;
    var n := PartCount(duration, pd);
    CountBounds(duration, pd);
    OneMore(n - 1, pd);
    var start := (n - 1) * pd;
    assert 0 <= start by { MultipleOrder(0, n - 1, pd); }
    WrapIdentity(start);
    WrapIdentity(start + pd);
    var parts := PartsOf(duration, partDurationSec, keyPrefix, labelPrefix);
    var end := Wrap64(start + pd);
    assert parts[n - 1] == PartAt(duration, pd, keyPrefix, labelPrefix, n - 1);
    assert parts[n - 1].endOffsetMs == Milliseconds(end);
    NegativeMilliseconds(end);
    assert duration / MILLISECOND > 0;
    LastEnd(parts, duration, partDurationSec);
  }

  lemma NegativeMilliseconds(d: int)
    requires d < 0
    ensures Milliseconds(d) <= 0
  {
  }

  lemma LastEnd(parts: seq<RecordingPart>, duration: int, partDurationSec: int)
    ensures Tiles(parts, duration, partDurationSec) ==> parts != [] && parts[|parts| - 1].endOffsetMs == duration / MILLISECOND
  {
  }

  /** buildParts tiles the recording, exactly when the number of parts fits int32 and their total
      length fits int64. */
  lemma TilingIff(duration: Int64, partDurationSec: Int32, keyPrefix: string, labelPrefix: string)
    requires duration > 0 && partDurationSec > 0
    ensures Tiles(PartsOf(duration, partDurationSec, keyPrefix, labelPrefix), duration, partDurationSec)
       <==> NoOverflow(PartCount(duration, partDurationSec * SECOND), partDurationSec * SECOND)
  {
    hide PartCount, PartsOf, Tiles;
    if NoOverflow(PartCount(duration, partDurationSec * SECOND), partDurationSec * SECOND) {
      TilesWithoutOverflow(duration, partDurationSec, keyPrefix, labelPrefix);
    } else if PartCount(duration, partDurationSec * SECOND) > MAX_INT32 {
      IndexOverflowBreaksTiling(duration, partDurationSec, keyPrefix, labelPrefix);
    } else {
      OffsetOverflowBreaksTiling(duration, partDurationSec, keyPrefix, labelPrefix);
    }
  }

  /** Recordings of up to 2^31 - 1 seconds never overflow, whatever the part length. */
  lemma LongRecordingsTile(duration: Int64, partDurationSec: Int32, keyPrefix: string, labelPrefix: string)
    requires 0 < duration <= MAX_INT32 * SECOND && partDurationSec > 0
    ensures Tiles(PartsOf(duration, partDurationSec, keyPrefix, labelPrefix), duration, partDurationSec)
  {
    hide PartCount, PartsOf, Tiles;
    var pd := partDurationSec * SECOND;
    var n := PartCount(duration, pd);
    CountBounds(duration, pd);
    OneMore(n - 1, pd);
    if n > MAX_INT32 {
      MultipleOrder(MAX_INT32, n - 1, pd);
      MultipleOrder(SECOND, pd, MAX_INT32);
    }
    TilingIff(duration, partDurationSec, keyPrefix, labelPrefix);
  }

  /** One-second parts of a recording of 2^31 seconds: the last index wraps. */
  lemma IndexOverflowExample(keyPrefix: string, labelPrefix: string)
    ensures !Tiles(PartsOf(0x8000_0000 * SECOND, 1, keyPrefix, labelPrefix), 0x8000_0000 * SECOND, 1)
  {
    hide PartsOf, Tiles;
    IndexOverflowBreaksTiling(0x8000_0000 * SECOND, 1, keyPrefix, labelPrefix);
  }

  /** Parts of 2^31 - 1 seconds of the longest duration Go can name: the fifth one's end offset wraps. */
  lemma OffsetOverflowExample(keyPrefix: string, labelPrefix: string)
    ensures PartCount(MAX_INT64, MAX_INT32 * SECOND) == 5
    ensures !Tiles(PartsOf(MAX_INT64, MAX_INT32, keyPrefix, labelPrefix), MAX_INT64, MAX_INT32)
  {
    hide PartsOf, Tiles;
    OffsetOverflowBreaksTiling(MAX_INT64, MAX_INT32, keyPrefix, labelPrefix);
  }
}
