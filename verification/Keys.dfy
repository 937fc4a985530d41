/** Object keys of track segments. */
module Keys {
  import opened GoTypes

  function TrackID(peerID: string, trackType: string, producerID: string): string {
    peerID + "-" + trackType + "-" + producerID
  }

  function SegmentTrackID(trackID: string, index: nat): string {
    trackID + "-" + SprintfPadded(6, index)
  }

  function SegmentFileName(trackID: string, index: nat): string {
    SegmentTrackID(trackID, index) + ".rtp"
  }

  function RecordingPrefix(roomID: string, recordingID: string): string {
    "rooms/" + roomID + "/" + recordingID + "/"
  }

  function TrackPath(roomID: string, recordingID: string, trackID: string): string {
    RecordingPrefix(roomID, recordingID) + "tracks/" + trackID + ".rtp"
  }

  function SegmentKey(roomID: string, recordingID: string, trackID: string, index: nat): string {
    TrackPath(roomID, recordingID, SegmentTrackID(trackID, index))
  }

  lemma CancelPrefix(p: string, a: string, b: string)
    requires p + a == p + b
    ensures a == b
  {
    assert (p + a)[|p|..] == a && (p + b)[|p|..] == b;
  }

  lemma CancelSuffix(a: string, b: string, s: string)
    requires a + s == b + s
    ensures a == b
  {
    assert |a + s| == |b + s|;
    assert (a + s)[..|a|] == a && (b + s)[..|b|] == b;
  }

  /** A digit string holds no dash, so the last dash separates it from what comes before. */
  lemma SplitAtLastDash(a: string, x: string, b: string, y: string)
    requires AllDigits(x) && AllDigits(y) && a + "-" + x == b + "-" + y
    ensures a == b && x == y
  {
    var s, t := a + "-" + x, b + "-" + y;
    assert s[|a|] == '-' && t[|b|] == '-';
    assert forall k :: |a| < k < |s| ==> s[k] == x[k - |a| - 1];
    assert forall k :: |b| < k < |t| ==> t[k] == y[k - |b| - 1];
    assert |a| == |b|;
    assert s[..|a|] == a && t[..|a|] == b;
    assert s[|a| + 1..] == x && t[|b| + 1..] == y;
  }

  /** Two segments share a file name only if they have the same track ID and the same index; the
      six-digit padding never makes indices collide, even beyond 999999. */
  lemma FileNameInjective(t: string, i: nat, u: string, j: nat)
    ensures SegmentFileName(t, i) == SegmentFileName(u, j) <==> t == u && i == j
  {
    if SegmentFileName(t, i) == SegmentFileName(u, j) {
      CancelSuffix(SegmentTrackID(t, i), SegmentTrackID(u, j), ".rtp");
      PaddedRoundTrip(6, i);
      PaddedRoundTrip(6, j);
      SplitAtLastDash(t, SprintfPadded(6, i), u, SprintfPadded(6, j));
    }
  }

  /** The object key is the recording's track folder and the file name that the metadata lists. */
  lemma KeyOfFile(roomID: string, recordingID: string, t: string, i: nat)
    ensures SegmentKey(roomID, recordingID, t, i)
         == RecordingPrefix(roomID, recordingID) + "tracks/" + SegmentFileName(t, i)
  {
    var prefix := RecordingPrefix(roomID, recordingID) + "tracks/";
    assert prefix + SegmentTrackID(t, i) + ".rtp" == prefix + (SegmentTrackID(t, i) + ".rtp");
  }

  /** Within one recording, two segments share an object key exactly when they have the same track ID
      and the same index. */
  lemma SegmentKeyInjective(roomID: string, recordingID: string, t: string, i: nat, u: string, j: nat)
    ensures SegmentKey(roomID, recordingID, t, i) == SegmentKey(roomID, recordingID, u, j)
       <==> t == u && i == j
  {
    hide SegmentKey, SegmentFileName;
    KeyOfFile(roomID, recordingID, t, i);
    KeyOfFile(roomID, recordingID, u, j);
    FileNameInjective(t, i, u, j);
    if SegmentKey(roomID, recordingID, t, i) == SegmentKey(roomID, recordingID, u, j) {
      CancelPrefix(RecordingPrefix(roomID, recordingID) + "tracks/", SegmentFileName(t, i), SegmentFileName(u, j));
    }
  }

  ghost predicate NoSlash(s: string) {
    forall i :: 0 <= i < |s| ==> s[i] != '/'
  }

  /** Of two equal paths, the first components are equal, and so are the rests. */
  lemma SplitAtFirstSlash(a: string, x: string, b: string, y: string)
    requires NoSlash(a) && NoSlash(b) && a + "/" + x == b + "/" + y
    ensures a == b && x == y
  {
    var s, t := a + "/" + x, b + "/" + y;
    assert s[|a|] == '/' && t[|b|] == '/';
    assert forall i :: 0 <= i < |a| ==> s[i] == a[i];
    assert forall i :: 0 <= i < |b| ==> t[i] == b[i];
    assert |a| == |b|;
    assert s[..|a|] == a && t[..|b|] == b;
    assert s[|a| + 1..] == x && t[|b| + 1..] == y;
  }

  /** Recordings with different room or recording IDs never share an object, whatever their tracks are
      called, as long as the IDs hold no slash. */
  lemma RecordingsApart(room: string, rec: string, f: string, room': string, rec': string, f': string)
    requires NoSlash(room) && NoSlash(room') && NoSlash(rec) && NoSlash(rec')
    requires RecordingPrefix(room, rec) + f == RecordingPrefix(room', rec') + f'
    ensures room == room' && rec == rec' && f == f'
  {
    assert RecordingPrefix(room, rec) + f == "rooms/" + (room + "/" + (rec + "/" + f));
    assert RecordingPrefix(room', rec') + f' == "rooms/" + (room' + "/" + (rec' + "/" + f'));
    CancelPrefix("rooms/", room + "/" + (rec + "/" + f), room' + "/" + (rec' + "/" + f'));
    SplitAtFirstSlash(room, rec + "/" + f, room', rec' + "/" + f');
    SplitAtFirstSlash(rec, f, rec', f');
  }

  /** Different producer IDs of one length give different track IDs, whatever the peers. */
  lemma ProducersTellTracksApart(peer: string, kind: string, producer: string, peer': string, kind': string, producer': string)
    requires |producer| == |producer'| && producer != producer'
    ensures TrackID(peer, kind, producer) != TrackID(peer', kind', producer')
  {
    var s, t := TrackID(peer, kind, producer), TrackID(peer', kind', producer');
    assert s[|s| - |producer|..] == producer && t[|t| - |producer'|..] == producer';
  }

  /** With lengths left free the dashes are ambiguous. */
  lemma TrackIDsCollide()
    ensures TrackID("a", "audio", "b-audio-c") == TrackID("a-audio-b", "audio", "c")
  {
  }

  /** Where a segment lies, and what its file is called: the index takes at least six digits and no more zeros than
      that needs. */
  lemma KeyShape(roomID: string, recordingID: string, trackID: string, i: nat) returns (d: string)
    ensures Denotes(d, i) && |d| >= 6 && (|d| > 6 ==> d[0] != '0')
    ensures SegmentFileName(trackID, i) == trackID + "-" + d + ".rtp"
    ensures SegmentKey(roomID, recordingID, trackID, i)
         == "rooms/" + roomID + "/" + recordingID + "/" + ("tracks/" + (trackID + "-" + d + ".rtp"))
  {
    d := SprintfPadded(6, i);
    PaddedRoundTrip(6, i);
    PaddedShape(6, i);
    hide SprintfPadded;
    KeyOfFile(roomID, recordingID, trackID, i);
    hide SegmentKey;
    var prefix := RecordingPrefix(roomID, recordingID);
    assert prefix + "tracks/" + SegmentFileName(trackID, i) == prefix + ("tracks/" + SegmentFileName(trackID, i));
  }
}
