/** Files as concatenations of frames: what a scan of arbitrary bytes finds, and what a crash leaves. */
module Recovery {
  import opened Basics
  import opened Records
  import opened Codec

  function Frames(crc: Checksum, recs: seq<Record>): seq<byte> {
    if recs == [] then [] else Encode(crc, recs[0]) + Frames(crc, recs[1..])
  }

  /** The records a reader finds from the start of b until the first thing that is not a frame. */
  function Scan(crc: Checksum, b: seq<byte>): (recs: seq<Record>)
    decreases |b|
  {
    var p := Decode(crc, b);
    if p.Frame? then [p.rec] + Scan(crc, b[p.size..]) else []
  }

  /** The bytes the scan did not turn into records. */
  function Leftover(crc: Checksum, b: seq<byte>): (rest: seq<byte>)
    ensures !Decode(crc, rest).Frame?
    decreases |b|
  {
    var p := Decode(crc, b);
    if p.Frame? then Leftover(crc, b[p.size..]) else b
  }

  lemma FramesCons(crc: Checksum, r: Record, recs: seq<Record>)
    ensures Frames(crc, [r] + recs) == Encode(crc, r) + Frames(crc, recs)
  {
    hide Encode;
    assert ([r] + recs)[1..] == recs;
  }

  lemma {:induction false} FramesConcat(crc: Checksum, a: seq<Record>, b: seq<Record>)
    ensures Frames(crc, a + b) == Frames(crc, a) + Frames(crc, b)
  {
    hide Encode;
    if a == [] {
      assert a + b == b;
    } else {
      var r, later := a[0], a[1..];
      FramesConcat(crc, later, b);
      hide Frames;
      FramesCons(crc, r, later);
      FramesCons(crc, r, later + b);
      assert a == [r] + later && a + b == [r] + (later + b);
      Associate(Encode(crc, r), Frames(crc, later), Frames(crc, b));
    }
  }

  lemma FramesSnoc(crc: Checksum, recs: seq<Record>, r: Record)
    ensures Frames(crc, recs + [r]) == Frames(crc, recs) + Encode(crc, r)
  {
    FramesConcat(crc, recs, [r]);
    assert Frames(crc, [r]) == Encode(crc, r) + Frames(crc, []);
  }

  lemma FramesSplit(crc: Checksum, recs: seq<Record>, i: nat)
    requires i <= |recs|
    ensures Frames(crc, recs) == Frames(crc, recs[..i]) + Frames(crc, recs[i..])
  {
    hide Frames;
    assert recs[..i] + recs[i..] == recs;
    FramesConcat(crc, recs[..i], recs[i..]);
  }

  /** The scan of arbitrary bytes splits them into the frames found and the leftover. */
  lemma {:induction false} ScanSplits(crc: Checksum, b: seq<byte>)
    ensures AllFit(Scan(crc, b))
    ensures b == Frames(crc, Scan(crc, b)) + Leftover(crc, b)
    decreases |b|
  {
    hide Decode, Encode;
    var p := Decode(crc, b);
    if p.Frame? {
      EncodeOfDecode(crc, b);
      var rest := b[p.size..];
      ScanSplits(crc, rest);
      assert Scan(crc, b)[1..] == Scan(crc, rest);
      assert b == Encode(crc, p.rec) + rest;
    }
  }

  /** A frame written first is found first. */
  lemma ScanFirst(crc: Checksum, r: Record, rest: seq<byte>)
    requires Fits(r)
    ensures Scan(crc, Encode(crc, r) + rest) == [r] + Scan(crc, rest)
    ensures Leftover(crc, Encode(crc, r) + rest) == Leftover(crc, rest)
  {
    hide Decode, Encode;
    DecodeOfEncode(crc, r, rest);
    assert (Encode(crc, r) + rest)[|Encode(crc, r)|..] == rest;
  }

  /** Frames written first are found first, whatever bytes follow them. */
  lemma {:induction false} ScanAfterFrames(crc: Checksum, recs: seq<Record>, tail: seq<byte>)
    requires AllFit(recs)
    ensures Scan(crc, Frames(crc, recs) + tail) == recs + Scan(crc, tail)
    ensures Leftover(crc, Frames(crc, recs) + tail) == Leftover(crc, tail)
  {
    hide Encode, Scan, Leftover;
    if recs == [] {
      assert Frames(crc, recs) + tail == tail;
      assert recs + Scan(crc, tail) == Scan(crc, tail);
    } else {
      var r, later := recs[0], recs[1..];
      ScanAfterFrames(crc, later, tail);
      FramesCons(crc, r, later);
      hide Frames;
      assert recs == [r] + later;
      Associate(Encode(crc, r), Frames(crc, later), tail);
      ScanFirst(crc, r, Frames(crc, later) + tail);
      Associate([r], later, Scan(crc, tail));
    }
  }

  lemma ScanOfNothing(crc: Checksum)
    ensures Scan(crc, []) == [] && Leftover(crc, []) == []
  {
  }

  /** What the scan keeps is the longest prefix of the file that is a concatenation of frames:
      no other list of frames the file starts with goes further, and all of them are found. */
  lemma ScanIsLongest(crc: Checksum, b: seq<byte>, recs: seq<Record>)
    requires AllFit(recs)
    ensures Frames(crc, recs) <= b <==> recs <= Scan(crc, b)
  {
    hide Frames, Scan, Leftover;
    ScanSplits(crc, b);
    var found := Scan(crc, b);
    if Frames(crc, recs) <= b {
      var tail := b[|Frames(crc, recs)|..];
      assert b == Frames(crc, recs) + tail;
      ScanAfterFrames(crc, recs, tail);
    }
    if recs <= found {
      FramesSplit(crc, found, |recs|);
      assert found[..|recs|] == recs;
    }
  }

  /** The file that recovery leaves behind: the frames of the scan and nothing else. */
  function Recovered(crc: Checksum, b: seq<byte>): seq<byte> {
    Frames(crc, Scan(crc, b))
  }

  /** Recovering a recovered file changes nothing and finds the same records. */
  lemma RecoveryIdempotent(crc: Checksum, b: seq<byte>)
    ensures Scan(crc, Recovered(crc, b)) == Scan(crc, b)
    ensures Recovered(crc, Recovered(crc, b)) == Recovered(crc, b)
    ensures Recovered(crc, b) <= b
  {
    hide Frames, Scan, Leftover;
    ScanSplits(crc, b);
    ScanAfterFrames(crc, Scan(crc, b), []);
    ScanOfNothing(crc);
    assert Recovered(crc, b) + [] == Recovered(crc, b);
    assert Scan(crc, b) + [] == Scan(crc, b);
  }

  lemma ScanOfTorn(crc: Checksum, r: Record, n: nat)
    requires Fits(r) && n <= |Encode(crc, r)|
    ensures Scan(crc, Encode(crc, r)[..n]) == if n < |Encode(crc, r)| then [] else [r]
  {
    if n < |Encode(crc, r)| {
      DecodeOfTorn(crc, r, n);
    } else {
      assert Encode(crc, r)[..n] == Encode(crc, r) + [];
      DecodeOfEncode(crc, r, []);
    }
  }

  /** A crash that cuts the append of r after n of its bytes leaves, once recovered, the old records
      if the cut is inside the frame and the old records plus r if the frame is whole. */
  lemma CrashAtomic(crc: Checksum, recs: seq<Record>, r: Record, n: nat)
    requires AllFit(recs) && Fits(r) && n <= |Encode(crc, r)|
    ensures var kept := Scan(crc, Frames(crc, recs) + Encode(crc, r)[..n]);
            kept == if n < |Encode(crc, r)| then recs else recs + [r]
  {
    ScanAfterFrames(crc, recs, Encode(crc, r)[..n]);
    ScanOfTorn(crc, r, n);
  }
}
