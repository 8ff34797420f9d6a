/** Reading through the offset index against reading the whole file. */
module IndexedRead {
  import opened Records
  import opened Codec
  import opened Recovery
  import opened Storage

  /** What ReadFrom returns on a file made of these records and followed by stale bytes. */
  function ThroughIndex(crc: Checksum, recs: seq<Record>, stale: seq<byte>, offset: nat, max: int): ReadResult {
    var index := IndexOf(crc, recs);
    var data := Frames(crc, recs) + stale;
    if offset in index then
      IndexInside(crc, recs, offset);
      ReadBytes(crc, data[index[offset]..], offset, max)
    else if offset >= NextOf(recs) then ReadResult([], true)
    else ReadBytes(crc, data, offset, max)
  }

  /** The log's read is the indexed read of its records and of whatever lies behind them. */
  method ReadIndexed(lead: Log, offset: nat, max: int) returns (recs: seq<Record>, ok: bool)
    requires lead.Valid()
    ensures ReadResult(recs, ok) == ThroughIndex(lead.crc, lead.recs, lead.f.data[lead.size..], offset, max)
  {
    assert lead.f.data == Frames(lead.crc, lead.recs) + lead.f.data[lead.size..];
    hide Frames, IndexOf, ReadBytes, NextOf;
    recs, ok := lead.ReadFrom(offset, max);
  }

  /** The reference: scan from byte 0 and keep the first max records at or after the offset. */
  function FullScan(recs: seq<Record>, offset: nat, max: int): ReadResult {
    var found := From(recs, offset);
    ReadResult(if 0 < max <= |found| then found[..max] else found, true)
  }

  predicate Increasing(recs: seq<Record>) {
    forall i, j :: 0 <= i < j < |recs| ==> recs[i].offset < recs[j].offset
  }

  // ----- the filter -----

  lemma {:induction false} FromKeepsAll(recs: seq<Record>, o: nat)
    requires forall i :: 0 <= i < |recs| ==> recs[i].offset >= o
    ensures From(recs, o) == recs
  {
    if recs != [] {
      FromKeepsAll(recs[1..], o);
    }
  }

  lemma {:induction false} FromDropsAll(recs: seq<Record>, o: nat)
    requires forall i :: 0 <= i < |recs| ==> recs[i].offset < o
    ensures From(recs, o) == []
  {
    if recs != [] {
      FromDropsAll(recs[1..], o);
    }
  }

  lemma {:induction false} FromConcat(a: seq<Record>, b: seq<Record>, o: nat)
    ensures From(a + b, o) == From(a, o) + From(b, o)
  {
    if a == [] {
      assert a + b == b;
    } else {
      hide From;
      var x, later := a[0], a[1..];
      FromConcat(later, b, o);
      assert a == [x] + later && a + b == [x] + (later + b);
      FromCons(x, later, o);
      FromCons(x, later + b, o);
    }
  }

  lemma FromMember(recs: seq<Record>, o: nat, i: nat)
    requires i < |recs| && recs[i].offset >= o
    ensures recs[i] in From(recs, o)
  {
    FromConcat(recs[..i], recs[i..], o);
    assert recs[..i] + recs[i..] == recs;
    assert From(recs[i..], o)[0] == recs[i];
  }

  lemma {:induction false} FromOnlyAtOrAfter(recs: seq<Record>, o: nat)
    ensures |From(recs, o)| <= |recs|
    ensures forall r :: r in From(recs, o) ==> r.offset >= o
  {
    if recs != [] {
      FromOnlyAtOrAfter(recs[1..], o);
    }
  }

  // ----- seeking -----

  /** The bytes from the start of frame i on are the frames of the records from i on. */
  lemma SeekFrame(crc: Checksum, recs: seq<Record>, stale: seq<byte>, i: nat)
    requires AllFit(recs) && i <= |recs|
    ensures var data := Frames(crc, recs) + stale;
            var pos := |Frames(crc, recs[..i])|;
            && pos <= |Frames(crc, recs)|
            && Scan(crc, data[pos..]) == recs[i..] + Scan(crc, stale)
            && Leftover(crc, data[pos..]) == Leftover(crc, stale)
  {
    hide Frames, Scan, Leftover;
    FramesSplit(crc, recs, i);
    var data := Frames(crc, recs) + stale;
    assert data[|Frames(crc, recs[..i])|..] == Frames(crc, recs[i..]) + stale;
    ScanAfterFrames(crc, recs[i..], stale);
  }

  /** A dense log serves every bounded read that stays inside it, whatever a failed append left behind. */
  lemma DenseSlice(crc: Checksum, recs: seq<Record>, stale: seq<byte>, offset: nat, max: nat)
    requires AllFit(recs) && Dense(recs)
    requires 0 < max && offset + max <= |recs|
    ensures ThroughIndex(crc, recs, stale, offset, max) == ReadResult(recs[offset..offset + max], true)
  {
    hide Frames, Scan, Leftover, IndexOf, From;
    DenseIndex(crc, recs);
    SeekFrame(crc, recs, stale, offset);
    FromConcat(recs[offset..], Scan(crc, stale), offset);
    FromKeepsAll(recs[offset..], offset);
    assert (recs[offset..] + From(Scan(crc, stale), offset))[..max] == recs[offset..offset + max];
  }

  lemma BytesOfTight(crc: Checksum, recs: seq<Record>, i: nat, offset: nat, max: int)
    requires AllFit(recs) && i <= |recs|
    ensures |Frames(crc, recs[..i])| <= |Frames(crc, recs)|
    ensures ReadBytes(crc, Frames(crc, recs)[|Frames(crc, recs[..i])|..], offset, max)
            == FullScan(recs[i..], offset, max)
  {
    hide Frames, Scan, Leftover, From;
    SeekFrame(crc, recs, [], i);
    ScanOfNothing(crc);
    assert Frames(crc, recs) + [] == Frames(crc, recs);
    assert recs[i..] + [] == recs[i..];
  }

  lemma SeekSkipsOnlySmaller(recs: seq<Record>, i: nat, offset: nat)
    requires Increasing(recs) && i < |recs| && recs[i].offset == offset
    ensures From(recs, offset) == From(recs[i..], offset)
  {
    assert recs == recs[..i] + recs[i..];
    FromConcat(recs[..i], recs[i..], offset);
    FromDropsAll(recs[..i], offset);
  }

  lemma IndexedReadIsFullScan(crc: Checksum, recs: seq<Record>, offset: nat, max: int)
    requires AllFit(recs) && Seekable(recs) && offset < TWO_64
    ensures ThroughIndex(crc, recs, [], offset, max) == FullScan(recs, offset, max)
  {
    hide Frames, From, IndexOf, ReadBytes;
    IndexLeadsToLast(crc, recs, offset);
    assert Frames(crc, recs) + [] == Frames(crc, recs);
    if offset in IndexOf(crc, recs) {
      var i :| 0 <= i < |recs| && recs[i].offset == offset
               && IndexOf(crc, recs)[offset] == |Frames(crc, recs[..i])|;
      BytesOfTight(crc, recs, i, offset, max);
      SeekSkipsOnlySmaller(recs, i, offset);
    } else if offset >= NextOf(recs) {
      UnknownIsBeyond(recs, offset);
      FromDropsAll(recs, offset);
    } else {
      BytesOfTight(crc, recs, 0, offset, max);
      FramesOfNone(crc, recs);
    }
  }

  lemma FramesOfNone(crc: Checksum, recs: seq<Record>)
    ensures Frames(crc, recs[..0]) == [] && Frames(crc, recs)[0..] == Frames(crc, recs) && recs[0..] == recs
  {
  }

  lemma FullLogHasAll(recs: seq<Record>, offset: nat)
    requires Dense(recs) && offset < |recs|
    ensures exists i :: 0 <= i < |recs| && recs[i].offset == offset
  {
    assert recs[offset].offset == offset;
  }

  lemma UnknownIsBeyond(recs: seq<Record>, offset: nat)
    requires AllFit(recs) && Seekable(recs) && NextOf(recs) <= offset < TWO_64
    requires forall i :: 0 <= i < |recs| ==> recs[i].offset != offset
    ensures forall i :: 0 <= i < |recs| ==> recs[i].offset < offset
  {
    if recs != [] {
      var last := recs[|recs| - 1];
      assert Fits(last);
      if last.offset + 1 == TWO_64 {
        FullLogHasAll(recs, offset);
      }
    }
  }

  // ----- when the index is exact -----

  /** The files on which seeking is exact: offsets strictly increase, and the largest 64-bit offset,
      after which the counter restarts at 0, is used only by a log without holes. */
  predicate Seekable(recs: seq<Record>) {
    && Increasing(recs)
    && (recs == [] || recs[|recs| - 1].offset + 1 < TWO_64 || Dense(recs))
  }

  ghost predicate IndexExact(crc: Checksum, recs: seq<Record>)
    requires AllFit(recs)
  {
    forall offset: nat, max: int :: offset < TWO_64 ==>
      ThroughIndex(crc, recs, [], offset, max) == FullScan(recs, offset, max)
  }

  /** Seeking past a record that carries a larger or equal offset loses it. */
  lemma DisorderIsVisible(crc: Checksum, recs: seq<Record>, i: nat, j: nat)
    requires AllFit(recs) && i < j < |recs| && recs[j].offset <= recs[i].offset
    ensures ThroughIndex(crc, recs, [], recs[j].offset, 0) != FullScan(recs, recs[j].offset, 0)
  {
    hide Frames, From, IndexOf, ReadBytes;
    var o := recs[j].offset;
    IndexLeadsToLast(crc, recs, o);
    var last :| 0 <= last < |recs| && recs[last].offset == o
                && IndexOf(crc, recs)[o] == |Frames(crc, recs[..last])|
                && forall k :: last < k < |recs| ==> recs[k].offset != o;
    assert Frames(crc, recs) + [] == Frames(crc, recs);
    BytesOfTight(crc, recs, last, o, 0);
    FromConcat(recs[..last], recs[last..], o);
    assert recs == recs[..last] + recs[last..];
    FromMember(recs[..last], o, i);
  }

  /** Once the counter has wrapped, an offset missing from a sparse log reads as if it were beyond the end. */
  lemma WrapIsVisible(crc: Checksum, recs: seq<Record>) returns (o: nat)
    requires AllFit(recs) && Increasing(recs) && !Seekable(recs)
    ensures o < TWO_64 && ThroughIndex(crc, recs, [], o, 0) != FullScan(recs, o, 0)
  {
    hide Frames, From, IndexOf, ReadBytes;
    o := 0;
    while recs[o].offset == o
      invariant o < |recs|
      invariant forall k :: 0 <= k < o ==> recs[k].offset == k
      decreases |recs| - o
    {
      assert o + 1 == |recs| ==> Dense(recs);
      o := o + 1;
    }
    if o > 0 {
      assert recs[o - 1].offset < recs[o].offset;
    }
    assert Fits(recs[o]);
    IndexLeadsToLast(crc, recs, o);
    FromMember(recs, o, o);
  }

  /** Reading through the index agrees with the full scan, for every offset and every limit,
      exactly on the seekable files. */
  lemma IndexExactIff(crc: Checksum, recs: seq<Record>)
    requires AllFit(recs)
    ensures IndexExact(crc, recs) <==> Seekable(recs)
  {
    hide ThroughIndex, FullScan;
    if Seekable(recs) {
      forall offset: nat, max: int | offset < TWO_64
        ensures ThroughIndex(crc, recs, [], offset, max) == FullScan(recs, offset, max)
      {
        IndexedReadIsFullScan(crc, recs, offset, max);
      }
    } else if Increasing(recs) {
      var o := WrapIsVisible(crc, recs);
    } else {
      var i, j :| 0 <= i < j < |recs| && recs[j].offset <= recs[i].offset;
      assert Fits(recs[j]);
      DisorderIsVisible(crc, recs, i, j);
    }
  }

  /** A failed append may leave bytes behind the records. A log without holes still reads as if they were not there,
      for every offset and every limit, exactly when there are none or the log is empty. */
  lemma StaleExactIff(crc: Checksum, recs: seq<Record>, stale: seq<byte>)
    requires AllFit(recs) && Dense(recs) && |recs| < TWO_64
    ensures (forall offset: nat, max: int :: offset < TWO_64 ==>
               ThroughIndex(crc, recs, stale, offset, max) == FullScan(recs, offset, max))
            <==> stale == [] || recs == []
  {
    hide ThroughIndex, FullScan;
    if stale == [] {
      forall offset: nat, max: int | offset < TWO_64
        ensures ThroughIndex(crc, recs, stale, offset, max) == FullScan(recs, offset, max)
      {
        IndexedReadIsFullScan(crc, recs, offset, max);
      }
    } else if recs == [] {
      forall offset: nat, max: int
        ensures ThroughIndex(crc, recs, stale, offset, max) == FullScan(recs, offset, max)
      {
        EmptyReadsEmpty(crc, stale, offset, max);
      }
    } else {
      StaleIsVisible(crc, recs, stale);
    }
  }

  lemma EmptyReadsEmpty(crc: Checksum, stale: seq<byte>, offset: nat, max: int)
    ensures ThroughIndex(crc, [], stale, offset, max) == ReadResult([], true) == FullScan([], offset, max)
  {
  }

  /** A read of everything runs into the stale bytes: it fails on them or returns what they spell. */
  lemma StaleIsVisible(crc: Checksum, recs: seq<Record>, stale: seq<byte>)
    requires AllFit(recs) && Dense(recs) && recs != [] && stale != []
    ensures ThroughIndex(crc, recs, stale, 0, 0) != FullScan(recs, 0, 0)
  {
    hide Frames, Scan, Leftover, IndexOf, From;
    var behind := Scan(crc, stale);
    DenseIndex(crc, recs);
    SeekFrame(crc, recs, stale, 0);
    FramesOfNone(crc, recs);
    ScanSplits(crc, stale);
    FromKeepsAll(recs, 0);
    FromKeepsAll(recs + behind, 0);
    if behind == [] {
      assert stale == Frames(crc, []) + Leftover(crc, stale);
      FramesOfNone(crc, []);
    }
  }
}
