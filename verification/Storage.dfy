/** The log file of one partition: a class over mutable bytes that refines a sequence of records. */
module Storage {
  import opened Basics
  import opened Records
  import opened Codec
  import opened Recovery

  /** What the disk does to one append. A failed write may leave any part of the buffer behind. */
  datatype Disk = Healthy | WriteFails(written: nat) | SyncFails

  function Overwrite(data: seq<byte>, pos: nat, buf: seq<byte>): (data': seq<byte>)
    requires pos <= |data|
    ensures |data'| >= pos + |buf| && data'[..pos] == data[..pos] && data'[pos..pos + |buf|] == buf
    ensures |data| == pos ==> data' == data + buf
  {
    data[..pos] + buf + if pos + |buf| < |data| then data[pos + |buf|..] else []
  }

  /** The part of a frame that reaches the file; a failed sync leaves all of it there. */
  function Written(frame: seq<byte>, disk: Disk): (w: seq<byte>)
    ensures w <= frame && |w| == if disk.WriteFails? && disk.written < |frame| then disk.written else |frame|
  {
    match disk
    case WriteFails(n) => frame[..if n < |frame| then n else |frame|]
    case _ => frame
  }

  class File {
    var data: seq<byte>

    constructor (data: seq<byte>)
      ensures this.data == data
    {
      this.data := data;
    }
  }

  // ----- what the fields of a log stand for -----

  /** The offset-to-byte index of a file made of these records; a repeated offset keeps the last position. */
  function IndexOf(crc: Checksum, recs: seq<Record>): map<nat, nat> {
    if recs == [] then map[]
    else
      var init := recs[..|recs| - 1];
      IndexOf(crc, init)[recs[|recs| - 1].offset := |Frames(crc, init)|]
  }

  /** The next offset, a 64-bit counter that wraps around. */
  function NextOf(recs: seq<Record>): nat {
    if recs == [] then 0 else (recs[|recs| - 1].offset + 1) % TWO_64
  }

  lemma IndexOfSnoc(crc: Checksum, recs: seq<Record>, r: Record)
    ensures IndexOf(crc, recs + [r]) == IndexOf(crc, recs)[r.offset := |Frames(crc, recs)|]
    ensures NextOf(recs + [r]) == (r.offset + 1) % TWO_64
  {
    hide Frames;
    assert (recs + [r])[..|recs|] == recs;
  }

  /** The index knows exactly the offsets of the file, and leads to the last record that carries one. */
  lemma {:induction false} IndexLeadsToLast(crc: Checksum, recs: seq<Record>, o: nat)
    ensures o in IndexOf(crc, recs) <==> exists i :: 0 <= i < |recs| && recs[i].offset == o
    ensures o in IndexOf(crc, recs) ==>
              exists i :: 0 <= i < |recs| && recs[i].offset == o
                          && IndexOf(crc, recs)[o] == |Frames(crc, recs[..i])|
                          && forall j :: i < j < |recs| ==> recs[j].offset != o
  {
    hide Frames;
    if recs != [] {
      var n := |recs| - 1;
      var init := recs[..n];
      IndexOfSnoc(crc, init, recs[n]);
      assert recs == init + [recs[n]];
      hide IndexOf;
      IndexLeadsToLast(crc, init, o);
      if recs[n].offset != o && o in IndexOf(crc, recs) {
        var i :| 0 <= i < n && init[i].offset == o && IndexOf(crc, init)[o] == |Frames(crc, init[..i])|
                 && forall j :: i < j < n ==> init[j].offset != o;
        assert init[..i] == recs[..i];
        assert recs[i].offset == o;
      }
    }
  }

  /** In a dense log the index holds every offset below the next one, at the total length of the frames before it. */
  lemma DenseIndex(crc: Checksum, recs: seq<Record>)
    requires Dense(recs) && AllFit(recs)
    ensures forall o: nat :: o in IndexOf(crc, recs) <==> o < |recs|
    ensures forall o: nat :: o < |recs| ==> IndexOf(crc, recs)[o] == |Frames(crc, recs[..o])|
    ensures |recs| <= TWO_64 && NextOf(recs) == |recs| % TWO_64
  {
    forall o: nat
      ensures o in IndexOf(crc, recs) <==> o < |recs|
      ensures o < |recs| ==> IndexOf(crc, recs)[o] == |Frames(crc, recs[..o])|
    {
      IndexLeadsToLast(crc, recs, o);
      assert o < |recs| ==> recs[o].offset == o;
    }
    if recs != [] {
      assert Fits(recs[|recs| - 1]);
    }
  }

  // ----- what a read returns -----

  /** The records a reader keeps: those at or after the wanted offset. */
  function From(recs: seq<Record>, offset: nat): seq<Record> {
    if recs == [] then []
    else (if recs[0].offset < offset then [] else [recs[0]]) + From(recs[1..], offset)
  }

  datatype ReadResult = ReadResult(recs: seq<Record>, ok: bool)

  /** Reading bytes from their start: at most max records (all when max <= 0). The read fails only
      when it runs into bytes that are not a frame before it has enough. */
  function ReadBytes(crc: Checksum, b: seq<byte>, offset: nat, max: int): ReadResult {
    var found := From(Scan(crc, b), offset);
    if 0 < max <= |found| then ReadResult(found[..max], true)
    else ReadResult(found, Leftover(crc, b) == [])
  }

  lemma FromCons(r: Record, recs: seq<Record>, offset: nat)
    ensures From([r] + recs, offset) == (if r.offset < offset then [] else [r]) + From(recs, offset)
  {
    assert ([r] + recs)[1..] == recs;
  }

  /** The read loop: frame after frame until the limit, the end, or something that is not a frame. */
  method ReadLoop(crc: Checksum, b: seq<byte>, offset: nat, max: int) returns (out: seq<Record>, ok: bool)
    ensures ReadResult(out, ok) == ReadBytes(crc, b, offset, max)
  {
    hide *;
    var r := new Reader(b);
    out, ok := [], true;
    ReadNothingYet(crc, b, offset, max);
    while true
      invariant r.Valid() && r.data == b && r.pos <= |b|
      invariant fresh(r)
      invariant Reading(crc, b, offset, max, out, r.pos)
      decreases |b| - r.pos
    {
      ghost var p := r.pos;
      var res := ReadRecord(crc, r);
      if !res.Frame? {
        ok := res == Eof;
        ReadEnds(crc, b, offset, max, out, p);
        return;
      }
      ReadStep(crc, b, offset, max, out, p);
      if res.rec.offset < offset {
        continue;
      }
      out := out + [res.rec];
      if max > 0 && |out| >= max {
        return;
      }
    }
  }

  /** The read loop's progress: out is what the bytes before pos contributed. */
  ghost predicate Reading(crc: Checksum, b: seq<byte>, offset: nat, max: int, out: seq<Record>, pos: nat) {
    && pos <= |b|
    && From(Scan(crc, b), offset) == out + From(Scan(crc, b[pos..]), offset)
    && Leftover(crc, b) == Leftover(crc, b[pos..])
    && (max > 0 ==> |out| < max)
  }

  lemma ReadNothingYet(crc: Checksum, b: seq<byte>, offset: nat, max: int)
    ensures Reading(crc, b, offset, max, [], 0)
  {
    assert b[0..] == b;
    assert [] + From(Scan(crc, b), offset) == From(Scan(crc, b), offset);
  }

  lemma ReadEnds(crc: Checksum, b: seq<byte>, offset: nat, max: int, out: seq<Record>, pos: nat)
    requires Reading(crc, b, offset, max, out, pos) && !Decode(crc, b[pos..]).Frame?
    ensures ReadBytes(crc, b, offset, max) == ReadResult(out, Decode(crc, b[pos..]) == Eof)
  {
    hide Decode, Encode;
    EofOnlyAtEnd(crc, b[pos..]);
    assert out + [] == out;
  }

  lemma ReadStep(crc: Checksum, b: seq<byte>, offset: nat, max: int, out: seq<Record>, pos: nat)
    requires Reading(crc, b, offset, max, out, pos) && Decode(crc, b[pos..]).Frame?
    ensures var p := Decode(crc, b[pos..]);
            var out' := out + [p.rec];
            if p.rec.offset < offset then Reading(crc, b, offset, max, out, pos + p.size)
            else if 0 < max <= |out'| then ReadBytes(crc, b, offset, max) == ReadResult(out', true)
            else Reading(crc, b, offset, max, out', pos + p.size)
  {
    hide Decode, Encode, Scan, Leftover, From;
    var p := Decode(crc, b[pos..]);
    ScanStep(crc, b, pos);
    var later := From(Scan(crc, b[pos + p.size..]), offset);
    FromCons(p.rec, Scan(crc, b[pos + p.size..]), offset);
    Associate(out, [p.rec], later);
    assert [] + later == later;
    assert 0 < max == |out| + 1 ==> ((out + [p.rec]) + later)[..max] == out + [p.rec];
  }

  class Log {
    const crc: Checksum
    const f: File
    var index: map<nat, nat>
    var nextOff: nat
    var size: nat
    ghost var recs: seq<Record>

    /** The bytes up to size are the frames of recs, and index and nextOff are what those frames say.
        Bytes after size can only be remains of a failed append. */
    ghost predicate Valid()
      reads this, f
    {
      && AllFit(recs)
      && size == |Frames(crc, recs)| <= |f.data|
      && f.data[..size] == Frames(crc, recs)
      && index == IndexOf(crc, recs)
      && nextOff == NextOf(recs)
    }

    /** No bytes of a failed append lie behind the records. */
    ghost predicate Tight()
      reads this, f
    {
      size == |f.data|
    }

    constructor (crc: Checksum, f: File)
      ensures Valid() && recs == [] && index == map[] && nextOff == 0
      ensures this.crc == crc && this.f == f
    {
      this.crc := crc;
      this.f := f;
      index := map[];
      nextOff := 0;
      size := 0;
      recs := [];
    }

    /** Reads one more frame and indexes it at its position, or meets something that is not a frame. */
    method ReplayOne(r: Reader) returns (res: Parsed)
      requires r.Valid() && Replaying(crc, r.data, recs, r.pos, index, nextOff)
      modifies r, this`index, this`nextOff, this`recs
      ensures r.Valid() && res == Decode(crc, r.data[old(r.pos)..])
      ensures res.Frame? ==> r.pos == old(r.pos) + res.size && Replaying(crc, r.data, recs, r.pos, index, nextOff)
      ensures !res.Frame? ==> index == old(index) && nextOff == old(nextOff) && recs == old(recs)
    {
      hide Decode, Encode, IndexOf, Frames, Scan, Leftover, NextOf, Replaying;
      ghost var start := r.pos;
      res := ReadRecord(crc, r);
      if res.Frame? {
        ReplayStep(crc, r.data, recs, start, index, nextOff);
        index := index[res.rec.offset := r.pos - res.size];
        nextOff := (res.rec.offset + 1) % TWO_64;
        recs := recs + [res.rec];
      }
    }

    /** Reads every frame of the file from its start and indexes it; stops at the first thing that is not one. */
    method Rebuild() returns (pos: nat, clean: bool)
      requires Valid() && recs == [] && index == map[] && nextOff == 0
      modifies this`index, this`nextOff, this`recs
      ensures recs == Scan(crc, f.data) && AllFit(recs)
      ensures pos == |Frames(crc, recs)| <= |f.data| && f.data[..pos] == Frames(crc, recs)
      ensures index == IndexOf(crc, recs) && nextOff == NextOf(recs)
      ensures clean <==> Leftover(crc, f.data) == []
    {
      hide *;
      var r := new Reader(f.data);
      pos := 0;
      ReplayNothingYet(crc, r.data);
      while true
        invariant r.Valid() && r.data == f.data && r.pos == pos <= |r.data|
        invariant fresh(r)
        invariant Replaying(crc, r.data, recs, pos, index, nextOff)
        decreases |r.data| - pos
      {
        var res := ReplayOne(r);
        if !res.Frame? {
          ReplayEnds(crc, f.data, recs, pos, index, nextOff);
          return pos, res == Eof;
        }
        pos := pos + res.size;
      }
    }

    /** Rebuilds the log from whatever bytes the file holds and cuts the file after the last good frame.
        A disk that refuses to truncate leaves the file alone and makes the replay fail. */
    method Replay(truncates: bool) returns (ok: bool)
      requires Valid() && recs == [] && index == map[] && nextOff == 0
      modifies this, f
      ensures ok <==> truncates || Leftover(crc, old(f.data)) == []
      ensures ok ==> Valid() && Tight()
      ensures ok ==> recs == Scan(crc, old(f.data)) && f.data == Recovered(crc, old(f.data))
      ensures !ok ==> f.data == old(f.data)
    {
      hide Frames, Scan, Leftover;
      ScanSplits(crc, f.data);
      var pos, clean := Rebuild();
      if !clean {
        if !truncates {
          return false;
        }
        f.data := f.data[..pos];
      }
      size := pos;
      return true;
    }

    /** Opens the log of a file, as a broker does at first use and after every restart. */
    static method Open(crc: Checksum, f: File, truncates: bool) returns (ok: bool, l: Log)
      modifies f
      ensures fresh(l) && l.f == f && l.crc == crc
      ensures ok <==> truncates || Leftover(crc, old(f.data)) == []
      ensures ok ==> l.Valid() && l.Tight()
      ensures ok ==> l.recs == Scan(crc, old(f.data)) && f.data == Recovered(crc, old(f.data))
      ensures !ok ==> f.data == old(f.data)
    {
      l := new Log(crc, f);
      ok := l.Replay(truncates);
    }

    /** Writes one frame behind the others. When the disk fails, only the bytes behind the records change: a part of
        the frame, or all of it, then lies there. */
    method AppendLocked(offset: nat, key: seq<byte>, value: seq<byte>, tsNano: int, disk: Disk) returns (ok: bool)
      requires Valid()
      requires offset == nextOff && Fits(Record(offset, key, value, tsNano))
      modifies this, f
      ensures Valid()
      ensures ok <==> disk == Healthy
      ensures ok ==> recs == old(recs) + [Record(offset, key, value, tsNano)]
      ensures ok && old(Tight()) ==> Tight()
      ensures !ok ==> unchanged(this) && f.data[..size] == old(f.data[..size])
      ensures f.data == Overwrite(old(f.data), old(size), Written(Encode(crc, Record(offset, key, value, tsNano)), disk))
    {
      hide Encode, Frames, IndexOf;
      var rec := Record(offset, key, value, tsNano);
      var buf := EncodeRecord(crc, rec);
      if disk.WriteFails? {
        var n := if disk.written < |buf| then disk.written else |buf|;
        f.data := Overwrite(f.data, size, buf[..n]);
        return false;
      }
      f.data := Overwrite(f.data, size, buf);
      if disk.SyncFails? {
        return false;
      }
      FramesSnoc(crc, recs, rec);
      IndexOfSnoc(crc, recs, rec);
      assert f.data[..size + |buf|] == f.data[..size] + f.data[size..size + |buf|];
      index := index[offset := size];
      size := size + |buf|;
      if offset >= nextOff {
        nextOff := (offset + 1) % TWO_64;
      }
      recs := recs + [rec];
      return true;
    }

    /** Appends at the next offset. */
    method Append(key: seq<byte>, value: seq<byte>, now: int, disk: Disk) returns (offset: nat, ok: bool)
      requires Valid()
      requires Fits(Record(0, key, value, now))
      modifies this, f
      ensures Valid()
      ensures ok <==> disk == Healthy
      ensures ok ==> offset == old(nextOff) && recs == old(recs) + [Record(offset, key, value, now)]
      ensures ok && old(Tight()) ==> Tight()
      ensures ok && Dense(old(recs)) && |old(recs)| < TWO_64 ==> offset == |old(recs)| && Dense(recs)
      ensures !ok ==> unchanged(this) && f.data[..size] == old(f.data[..size])
      ensures f.data == Overwrite(old(f.data), old(size), Written(Encode(crc, Record(old(nextOff), key, value, now)), disk))
    {
      hide Encode, Frames, IndexOf, Overwrite, Written;
      offset := nextOff;
      if Dense(recs) {
        DenseIndex(crc, recs);
      }
      ok := AppendLocked(offset, key, value, now, disk);
    }

    /** Appends at a required offset: a present offset is accepted and changes nothing, a gap is refused.
        On a dense log with a healthy disk this is exactly Offer. */
    method AppendAt(offset: nat, key: seq<byte>, value: seq<byte>, tsNano: int, disk: Disk) returns (ok: bool)
      requires Valid()
      requires Fits(Record(offset, key, value, tsNano))
      modifies this, f
      ensures Valid()
      ensures offset in old(index) ==> ok && unchanged(this) && unchanged(f)
      ensures offset !in old(index) && offset != old(nextOff) ==> !ok && unchanged(this) && unchanged(f)
      ensures offset !in old(index) && offset == old(nextOff) && disk == Healthy ==>
                ok && recs == old(recs) + [Record(offset, key, value, tsNano)]
      ensures offset !in old(index) && disk != Healthy ==>
                !ok && unchanged(this) && f.data[..size] == old(f.data[..size])
      ensures offset !in old(index) && offset == old(nextOff) ==>
                f.data == Overwrite(old(f.data), old(size), Written(Encode(crc, Record(offset, key, value, tsNano)), disk))
      ensures ok && old(Tight()) ==> Tight()
      ensures Dense(old(recs)) && (disk == Healthy || offset < |old(recs)|) ==>
                var r := Record(offset, key, value, tsNano);
                ok == Takes(old(recs), r) && recs == Offer(old(recs), r) && Dense(recs)
    {
      hide Encode, Frames, IndexOf, NextOf, Overwrite, Written;
      if Dense(recs) {
        DenseIndex(crc, recs);
      }
      if offset in index {
        return true;
      }
      if offset != nextOff {
        return false;
      }
      ok := AppendLocked(offset, key, value, tsNano, disk);
    }

    /** Up to max records at or after offset, found through the index when it knows the offset. */
    method ReadFrom(offset: nat, max: int) returns (out: seq<Record>, ok: bool)
      requires Valid()
      ensures offset !in index && offset >= nextOff ==> out == [] && ok
      ensures offset in index ==>
                index[offset] <= |f.data|
                && ReadResult(out, ok) == ReadBytes(crc, f.data[index[offset]..], offset, max)
      ensures offset !in index && offset < nextOff ==>
                ReadResult(out, ok) == ReadBytes(crc, f.data, offset, max)
    {
      var pos := 0;
      if offset in index {
        pos := index[offset];
        IndexInside(crc, recs, offset);
      } else if offset >= nextOff {
        return [], true;
      }
      assert pos == 0 ==> f.data[pos..] == f.data;
      out, ok := ReadLoop(crc, f.data[pos..], offset, max);
    }

    /** The next offset; in a dense log, the number of records. */
    method NextOffset() returns (n: nat)
      requires Valid()
      ensures n == nextOff
      ensures Dense(recs) && |recs| < TWO_64 ==> n == |recs|
    {
      if Dense(recs) {
        DenseIndex(crc, recs);
      }
      n := nextOff;
    }
  }

  lemma EofOnlyAtEnd(crc: Checksum, b: seq<byte>)
    ensures !Decode(crc, b).Frame? ==> Scan(crc, b) == [] && Leftover(crc, b) == b
    ensures Decode(crc, b) == Eof <==> b == []
  {
  }

  /** Reading one more frame takes it off the bytes still to scan. */
  lemma ScanStep(crc: Checksum, data: seq<byte>, pos: nat)
    requires pos <= |data| && Decode(crc, data[pos..]).Frame?
    ensures var p := Decode(crc, data[pos..]);
            && pos + p.size <= |data|
            && Scan(crc, data[pos..]) == [p.rec] + Scan(crc, data[pos + p.size..])
            && Leftover(crc, data[pos..]) == Leftover(crc, data[pos + p.size..])
  {
    assert data[pos..][Decode(crc, data[pos..]).size..] == data[pos + Decode(crc, data[pos..]).size..];
  }

  /** The replay's progress: recs are the frames before pos, indexed, and the rest is still to scan. */
  ghost predicate Replaying(crc: Checksum, data: seq<byte>, recs: seq<Record>, pos: nat,
                            index: map<nat, nat>, nextOff: nat) {
    && pos <= |data|
    && AllFit(recs)
    && data[..pos] == Frames(crc, recs)
    && Scan(crc, data) == recs + Scan(crc, data[pos..])
    && Leftover(crc, data) == Leftover(crc, data[pos..])
    && index == IndexOf(crc, recs)
    && nextOff == NextOf(recs)
  }

  lemma ReplayNothingYet(crc: Checksum, data: seq<byte>)
    ensures Replaying(crc, data, [], 0, map[], 0)
  {
    assert data[0..] == data;
    assert [] + Scan(crc, data) == Scan(crc, data);
  }

  lemma ReplayEnds(crc: Checksum, data: seq<byte>, recs: seq<Record>, pos: nat, index: map<nat, nat>, nextOff: nat)
    requires Replaying(crc, data, recs, pos, index, nextOff) && !Decode(crc, data[pos..]).Frame?
    ensures Scan(crc, data) == recs && AllFit(recs)
    ensures pos == |Frames(crc, recs)| && data[..pos] == Frames(crc, recs)
    ensures index == IndexOf(crc, recs) && nextOff == NextOf(recs)
    ensures Leftover(crc, data) == [] <==> Decode(crc, data[pos..]) == Eof
  {
    hide Decode, Encode, Frames;
    EofOnlyAtEnd(crc, data[pos..]);
    assert recs + [] == recs;
  }

  lemma ReplayStep(crc: Checksum, data: seq<byte>, recs: seq<Record>, pos: nat, index: map<nat, nat>, nextOff: nat)
    requires pos <= |data| && Replaying(crc, data, recs, pos, index, nextOff) && Decode(crc, data[pos..]).Frame?
    ensures var p := Decode(crc, data[pos..]);
            Replaying(crc, data, recs + [p.rec], pos + p.size,
                      index[p.rec.offset := pos], (p.rec.offset + 1) % TWO_64)
  {
    hide Decode, Encode, Frames, Scan, Leftover, IndexOf, NextOf;
    var p := Decode(crc, data[pos..]);
    EncodeOfDecode(crc, data[pos..]);
    assert data[pos..][..p.size] == data[pos..pos + p.size];
    assert data[..pos + p.size] == data[..pos] + data[pos..pos + p.size];
    FramesSnoc(crc, recs, p.rec);
    IndexOfSnoc(crc, recs, p.rec);
    ScanStep(crc, data, pos);
    Associate(recs, [p.rec], Scan(crc, data[pos + p.size..]));
  }

  lemma IndexInside(crc: Checksum, recs: seq<Record>, o: nat)
    requires o in IndexOf(crc, recs)
    ensures IndexOf(crc, recs)[o] <= |Frames(crc, recs)|
  {
    IndexLeadsToLast(crc, recs, o);
    var i :| 0 <= i < |recs| && IndexOf(crc, recs)[o] == |Frames(crc, recs[..i])|;
    FramesSplit(crc, recs, i);
  }
}
