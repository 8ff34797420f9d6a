/** Whole lives of one log: any list of appends, idempotent appends, reads and restarts, with any disk failures. */
module LogRuns {
  import opened Records
  import opened Codec
  import opened Recovery
  import opened Storage
  import opened IndexedRead

  datatype Op =
    | Append(key: seq<byte>, value: seq<byte>, now: int, disk: Disk)
    | AppendAt(rec: Record, disk: Disk)
    | Read(offset: nat, max: int)
    | Reopen

  datatype Answer = Appended(offset: nat) | Accepted | Failed | Found(read: ReadResult) | Opened

  /** What a log and its file amount to: the records, and the bytes of failed appends behind them. */
  datatype Contents = Contents(recs: seq<Record>, behind: seq<byte>)

  const NOTHING := Contents([], [])

  predicate OpFits(op: Op) {
    match op
    case Append(key, value, now, _) => Fits(Record(0, key, value, now))
    case AppendAt(r, _) => Fits(r)
    case _ => true
  }

  // ----- one operation -----

  /** The record an operation tries to write, if any. */
  predicate Writes(crc: Checksum, c: Contents, op: Op) {
    op.Append? || (op.AppendAt? && op.rec.offset !in IndexOf(crc, c.recs) && op.rec.offset == NextOf(c.recs))
  }

  function Target(c: Contents, op: Op): Record
    requires op.Append? || op.AppendAt?
  {
    if op.Append? then Record(NextOf(c.recs), op.key, op.value, op.now) else op.rec
  }

  function Put(crc: Checksum, c: Contents, rec: Record, disk: Disk): Contents {
    var frame := Encode(crc, rec);
    if disk != Healthy then Contents(c.recs, Overwrite(c.behind, 0, Written(frame, disk)))
    else Contents(c.recs + [rec], if |frame| < |c.behind| then c.behind[|frame|..] else [])
  }

  function After(crc: Checksum, c: Contents, op: Op): Contents {
    if Writes(crc, c, op) then Put(crc, c, Target(c, op), op.disk)
    else if op.Reopen? then Contents(c.recs + Scan(crc, c.behind), [])
    else c
  }

  function AnswerTo(crc: Checksum, c: Contents, op: Op): Answer {
    match op
    case Append(_, _, _, disk) => if disk == Healthy then Appended(NextOf(c.recs)) else Failed
    case AppendAt(r, disk) =>
      if r.offset in IndexOf(crc, c.recs) || (r.offset == NextOf(c.recs) && disk == Healthy) then Accepted else Failed
    case Read(offset, max) => Found(ThroughIndex(crc, c.recs, c.behind, offset, max))
    case Reopen => Opened
  }

  /** The log and its file are in order and amount to c. */
  ghost predicate Shows(l: Log, c: Contents)
    reads l, l.f
  {
    l.Valid() && l.recs == c.recs && l.f.data == Frames(l.crc, c.recs) + c.behind
  }

  lemma PutBytes(crc: Checksum, c: Contents, rec: Record, disk: Disk)
    ensures var data := Frames(crc, c.recs) + c.behind;
            var c' := Put(crc, c, rec, disk);
            Overwrite(data, |Frames(crc, c.recs)|, Written(Encode(crc, rec), disk)) == Frames(crc, c'.recs) + c'.behind
  {
    hide Encode, Frames, Overwrite, Written;
    FramesSnoc(crc, c.recs, rec);
    OverwriteBehind(Frames(crc, c.recs), c.behind, Written(Encode(crc, rec), disk));
  }

  /** Writing at the end of the records changes only what lies behind them. */
  lemma OverwriteBehind(front: seq<byte>, behind: seq<byte>, w: seq<byte>)
    ensures Overwrite(front + behind, |front|, w) == front + Overwrite(behind, 0, w)
    ensures Overwrite(front + behind, |front|, w) == (front + w) + if |w| < |behind| then behind[|w|..] else []
  {
    assert (front + behind)[..|front|] == front;
    assert |w| < |behind| ==> (front + behind)[|front| + |w|..] == behind[|w|..];
  }

  lemma ReopenBytes(crc: Checksum, c: Contents)
    requires AllFit(c.recs)
    ensures var data := Frames(crc, c.recs) + c.behind;
            var found := c.recs + Scan(crc, c.behind);
            Scan(crc, data) == found && Recovered(crc, data) == Frames(crc, found) + []
  {
    hide Frames, Scan;
    ScanAfterFrames(crc, c.recs, c.behind);
  }

  /** Stops using the log and opens its file again, as a restarted broker does. With nothing behind the records,
      records, index, nextOff, size and file come out as they were. */
  method ReopenLog(l: Log, ghost c: Contents) returns (l': Log)
    requires Shows(l, c)
    modifies l.f
    ensures fresh(l') && l'.f == l.f && l'.crc == l.crc
    ensures Shows(l', After(l.crc, c, Reopen)) && l'.Tight()
    ensures old(l.Tight()) ==>
              && l'.recs == l.recs && l'.index == l.index && l'.nextOff == l.nextOff && l'.size == l.size
              && l.f.data == old(l.f.data)
  {
    ReopenBytes(l.crc, c);
    ScanOfNothing(l.crc);
    assert c.recs + [] == c.recs && Frames(l.crc, c.recs) + [] == Frames(l.crc, c.recs);
    assert l.Tight() ==> c.behind == [];
    hide Frames, Scan, IndexOf, NextOf, Recovered, Leftover;
    var ok;
    ok, l' := Log.Open(l.crc, l.f, true);
  }

  method AppendToLog(l: Log, op: Op, ghost c: Contents) returns (a: Answer)
    requires Shows(l, c) && OpFits(op) && (op.Append? || op.AppendAt?)
    modifies l, l.f
    ensures Shows(l, After(l.crc, c, op)) && a == AnswerTo(l.crc, c, op)
  {
    PutBytes(l.crc, c, Target(c, op), op.disk);
    hide Encode, Frames, IndexOf, Overwrite, Written, Put;
    match op
    case Append(key, value, now, disk) =>
      var offset, ok := l.Append(key, value, now, disk);
      a := if ok then Appended(offset) else Failed;
      PutRecords(l.crc, c, Target(c, op), disk);
    case AppendAt(r, disk) =>
      assert Record(r.offset, r.key, r.value, r.tsNano) == r;
      var ok := l.AppendAt(r.offset, r.key, r.value, r.tsNano, disk);
      a := if ok then Accepted else Failed;
      PutRecords(l.crc, c, r, disk);
  }

  lemma PutRecords(crc: Checksum, c: Contents, rec: Record, disk: Disk)
    ensures Put(crc, c, rec, disk).recs == if disk == Healthy then c.recs + [rec] else c.recs
  {
  }

  method Perform(l: Log, op: Op, ghost c: Contents) returns (l': Log, a: Answer)
    requires Shows(l, c) && OpFits(op)
    modifies l, l.f
    ensures (l' == l || fresh(l')) && l'.f == l.f && l'.crc == l.crc
    ensures Shows(l', After(l.crc, c, op)) && a == AnswerTo(l.crc, c, op)
  {
    hide Frames, IndexOf, Put, ThroughIndex;
    l' := l;
    match op
    case Read(offset, max) =>
      var recs, ok := ReadIndexed(l, offset, max);
      a := Found(ReadResult(recs, ok));
      assert l.f.data[l.size..] == c.behind;
    case Reopen =>
      l' := ReopenLog(l, c);
      a := Opened;
    case _ =>
      a := AppendToLog(l, op, c);
  }

  // ----- whole lives -----

  function RunOf(crc: Checksum, c: Contents, ops: seq<Op>): Contents
    decreases |ops|
  {
    if ops == [] then c else RunOf(crc, After(crc, c, ops[0]), ops[1..])
  }

  function AnswersTo(crc: Checksum, c: Contents, ops: seq<Op>): (answers: seq<Answer>)
    ensures |answers| == |ops|
    decreases |ops|
  {
    if ops == [] then [] else [AnswerTo(crc, c, ops[0])] + AnswersTo(crc, After(crc, c, ops[0]), ops[1..])
  }

  /** Any list of operations on the log of an empty file. After each of them index, nextOff and size are what the
      records say; in a log without holes, index[i] is the length of the frames before i and nextOff the count. */
  method Operate(crc: Checksum, ops: seq<Op>) returns (l: Log, answers: seq<Answer>)
    requires forall op :: op in ops ==> OpFits(op)
    ensures fresh(l) && l.crc == crc
    ensures Shows(l, RunOf(crc, NOTHING, ops)) && answers == AnswersTo(crc, NOTHING, ops)
    ensures l.size == |Frames(crc, l.recs)| && l.index == IndexOf(crc, l.recs) && l.nextOff == NextOf(l.recs)
    ensures Dense(l.recs) ==>
              && l.nextOff == |l.recs| % TWO_64
              && forall i: nat :: (i in l.index <==> i < |l.recs|) && (i < |l.recs| ==> l.index[i] == |Frames(crc, l.recs[..i])|)
  {
    hide After, AnswerTo, IndexOf, NextOf, Frames;
    var f := new File([]);
    l := new Log(crc, f);
    answers := [];
    ghost var c := NOTHING;
    FramesOfNothing(crc);
    assert ops[0..] == ops;
    var i := 0;
    while i < |ops|
      invariant 0 <= i <= |ops|
      invariant fresh(l) && fresh(l.f) && l.crc == crc && Shows(l, c)
      invariant RunOf(crc, c, ops[i..]) == RunOf(crc, NOTHING, ops)
      invariant answers + AnswersTo(crc, c, ops[i..]) == AnswersTo(crc, NOTHING, ops)
    {
      assert ops[i] in ops && ops[i..][1..] == ops[i + 1..];
      var a;
      l, a := Perform(l, ops[i], c);
      answers := answers + [a];
      c := After(crc, c, ops[i]);
      i := i + 1;
    }
    if Dense(l.recs) {
      DenseIndex(crc, l.recs);
    }
  }

  lemma FramesOfNothing(crc: Checksum)
    ensures Frames(crc, []) == []
  {
  }

  /** No append, failure or restart ever takes a record away or changes one. */
  lemma {:induction false} RecordsOnlyGrow(crc: Checksum, c: Contents, ops: seq<Op>)
    ensures c.recs <= RunOf(crc, c, ops).recs
    decreases |ops|
  {
    hide Encode, IndexOf, NextOf, Scan;
    if ops != [] {
      RecordsOnlyGrow(crc, After(crc, c, ops[0]), ops[1..]);
    }
  }

  // ----- crashes -----

  /** An append that the disk or a crash cut short, followed by a restart: the old records if a part of the frame was
      written, the old records and the new one if all of it was. */
  lemma CrashThenReopen(crc: Checksum, recs: seq<Record>, op: Op)
    requires op.Append? && OpFits(op) && op.disk != Healthy && AllFit(recs)
    ensures var rec := Target(Contents(recs, []), op);
            var whole := |Written(Encode(crc, rec), op.disk)| == |Encode(crc, rec)|;
            RunOf(crc, Contents(recs, []), [op, Reopen]) == Contents(if whole then recs + [rec] else recs, [])
  {
    hide Encode, IndexOf, Scan;
    var c := Contents(recs, []);
    var rec := Target(c, op);
    var w := Written(Encode(crc, rec), op.disk);
    ScanOfTorn(crc, rec, |w|);
    assert Encode(crc, rec)[..|w|] == w;
    assert [op, Reopen][1..] == [Reopen] && [Reopen][1..] == [];
    var torn := After(crc, c, op);
    assert torn == Contents(recs, w);
    assert RunOf(crc, torn, [Reopen]) == RunOf(crc, After(crc, torn, Reopen), []);
    assert recs + [] == recs;
  }

  /** A failed append that is tried again with the same record leaves what it would have left at once. */
  lemma RetryHeals(crc: Checksum, recs: seq<Record>, r: Record, disk: Disk)
    requires disk != Healthy
    ensures RunOf(crc, Contents(recs, []), [AppendAt(r, disk), AppendAt(r, Healthy)])
            == After(crc, Contents(recs, []), AppendAt(r, Healthy))
  {
    hide Encode, IndexOf, NextOf, Scan;
    var c, again := Contents(recs, []), [AppendAt(r, Healthy)];
    assert [AppendAt(r, disk), AppendAt(r, Healthy)][1..] == again && again[1..] == [];
    var torn := After(crc, c, AppendAt(r, disk));
    assert torn.recs == recs;
    assert RunOf(crc, torn, again) == RunOf(crc, After(crc, torn, AppendAt(r, Healthy)), []);
  }

  // ----- holes -----

  /** What density comes down to, operation by operation: a restart finds behind the records nothing, or records that go
      on where the log ends; a healthy append does not find the 64-bit counter used up. Tidy below is what a
      caller can see to. */
  predicate KeepsDense(crc: Checksum, c: Contents, op: Op) {
    match op
    case Reopen => Contiguous(|c.recs|, Scan(crc, c.behind))
    case Append(_, _, _, disk) => disk == Healthy ==> |c.recs| < TWO_64
    case _ => true
  }

  /** An operation leaves a log without holes exactly in these cases. */
  lemma DenseStepIff(crc: Checksum, c: Contents, op: Op)
    requires AllFit(c.recs) && Dense(c.recs) && OpFits(op)
    ensures Dense(After(crc, c, op).recs) <==> KeepsDense(crc, c, op)
  {
    hide Encode, IndexOf, Scan;
    DenseIndex(crc, c.recs);
    if op.Reopen? {
      var found := Scan(crc, c.behind);
      assert forall i :: 0 <= i < |found| ==> (c.recs + found)[|c.recs| + i] == found[i];
    } else if Writes(crc, c, op) {
      assert |c.recs| < TWO_64 ==> NextOf(c.recs) == |c.recs|;
      assert (c.recs + [Target(c, op)])[|c.recs|] == Target(c, op);
    }
  }

  lemma FitsKept(crc: Checksum, c: Contents, op: Op)
    requires AllFit(c.recs) && OpFits(op)
    ensures AllFit(After(crc, c, op).recs)
  {
    hide Encode, IndexOf, Scan;
    ScanSplits(crc, c.behind);
  }

  /** No holes at any time. */
  predicate AlwaysDense(crc: Checksum, c: Contents, ops: seq<Op>)
    decreases |ops|
  {
    Dense(c.recs) && (ops == [] || AlwaysDense(crc, After(crc, c, ops[0]), ops[1..]))
  }

  predicate AllKeepDense(crc: Checksum, c: Contents, ops: seq<Op>)
    decreases |ops|
  {
    ops == [] || (KeepsDense(crc, c, ops[0]) && AllKeepDense(crc, After(crc, c, ops[0]), ops[1..]))
  }

  /** A life of a log is without holes at all times exactly when every restart finds nothing that leaves one. */
  lemma {:induction false} DenseRunIff(crc: Checksum, c: Contents, ops: seq<Op>)
    requires AllFit(c.recs) && Dense(c.recs) && forall op :: op in ops ==> OpFits(op)
    ensures AlwaysDense(crc, c, ops) <==> AllKeepDense(crc, c, ops)
    decreases |ops|
  {
    hide KeepsDense, After;
    if ops != [] {
      DenseStepIff(crc, c, ops[0]);
      FitsKept(crc, c, ops[0]);
      if KeepsDense(crc, c, ops[0]) {
        DenseRunIff(crc, After(crc, c, ops[0]), ops[1..]);
      }
    }
  }

  /** Behind the records lies at most the beginning of the next record's frame. */
  ghost predicate Neat(crc: Checksum, c: Contents) {
    c.behind == [] || exists r: Record :: Fits(r) && r.offset == |c.recs| && c.behind <= Encode(crc, r)
  }

  /** An operation on a log with remains of a failed append restarts it, writes nothing, writes over all the
      remains, or tries again what failed. */
  predicate Tidy(crc: Checksum, c: Contents, op: Op) {
    Writes(crc, c, op) ==>
      || |c.behind| <= |Written(Encode(crc, Target(c, op)), op.disk)|
      || c.behind <= Encode(crc, Target(c, op))
  }

  lemma TidyStep(crc: Checksum, c: Contents, op: Op)
    requires AllFit(c.recs) && Dense(c.recs) && OpFits(op) && |c.recs| < TWO_64 && Neat(crc, c) && Tidy(crc, c, op)
    ensures KeepsDense(crc, c, op) && Neat(crc, After(crc, c, op)) && |After(crc, c, op).recs| <= |c.recs| + 1
  {
    hide Encode, IndexOf, Scan;
    DenseIndex(crc, c.recs);
    if op.Reopen? {
      ScanOfNothing(crc);
      if c.behind != [] {
        var r: Record :| Fits(r) && r.offset == |c.recs| && c.behind <= Encode(crc, r);
        assert Encode(crc, r)[..|c.behind|] == c.behind;
        ScanOfTorn(crc, r, |c.behind|);
      }
    } else if Writes(crc, c, op) {
      TidyWrite(crc, c, Target(c, op), op.disk);
    }
  }

  lemma TidyWrite(crc: Checksum, c: Contents, r: Record, disk: Disk)
    requires Fits(r) && r.offset == |c.recs|
    requires |c.behind| <= |Written(Encode(crc, r), disk)| || c.behind <= Encode(crc, r)
    ensures Neat(crc, Put(crc, c, r, disk)) && |Put(crc, c, r, disk).recs| <= |c.recs| + 1
  {
    hide Encode;
    var frame := Encode(crc, r);
    var w := Written(frame, disk);
    if disk != Healthy && |w| < |c.behind| {
      assert w == c.behind[..|w|];
      assert Overwrite(c.behind, 0, w) == c.behind;
    }
  }

  predicate AllTidy(crc: Checksum, c: Contents, ops: seq<Op>)
    decreases |ops|
  {
    ops == [] || (Tidy(crc, c, ops[0]) && AllTidy(crc, After(crc, c, ops[0]), ops[1..]))
  }

  /** In particular when every failed append is followed by a restart or tried again. */
  lemma {:induction false} TidyRunsAreDense(crc: Checksum, c: Contents, ops: seq<Op>)
    requires AllFit(c.recs) && Dense(c.recs) && Neat(crc, c) && |c.recs| + |ops| < TWO_64
    requires AllTidy(crc, c, ops) && forall op :: op in ops ==> OpFits(op)
    ensures AlwaysDense(crc, c, ops) && Neat(crc, RunOf(crc, c, ops))
    decreases |ops|
  {
    hide KeepsDense, After, Neat, Tidy;
    if ops != [] {
      DenseStepIff(crc, c, ops[0]);
      FitsKept(crc, c, ops[0]);
      TidyStep(crc, c, ops[0]);
      TidyRunsAreDense(crc, After(crc, c, ops[0]), ops[1..]);
    }
  }

  /** Behind a short record written over the frame of a long one lies, whole, whatever frame the long one's key holds
      from its 17th byte on. */
  lemma KeyShowsThrough(crc: Checksum, key: seq<byte>, inner: seq<byte>)
    requires |key| >= 16 && key[16..] == inner
    ensures |Encode(crc, Record(0, [], [], 0))| == 28 && |Encode(crc, Record(0, key, [], 0))| >= 28 + |inner|
    ensures inner <= Encode(crc, Record(0, key, [], 0))[28..]
  {
    var a := Record(0, key, [], 0);
    var frame := Encode(crc, a);
    FrameLayout(crc, a, []);
    hide Encode;
    assert frame + [] == frame && frame[12..12 + |key|] == key;
    assert frame[28..][..|inner|] == frame[12..12 + |key|][16..];
  }

  lemma FoundBehind(crc: Checksum, x: Record, behind: seq<byte>)
    requires Fits(x) && Encode(crc, x) <= behind
    ensures Scan(crc, behind) != [] && Scan(crc, behind)[0] == x
  {
    hide Encode, Scan, Frames;
    var rest := behind[|Encode(crc, x)|..];
    FramesSnoc(crc, [], x);
    FramesOfNothing(crc);
    assert [] + [x] == [x] && [] + Encode(crc, x) == Encode(crc, x);
    assert behind == Frames(crc, [x]) + rest;
    ScanAfterFrames(crc, [x], rest);
  }

  /** Otherwise a hole is possible: an append whose sync fails, a shorter one that succeeds, and a restart, which
      finds a frame inside the key that was never stored. */
  lemma ResurfacingFrame(crc: Checksum) returns (ops: seq<Op>)
    ensures forall op :: op in ops ==> OpFits(op)
    ensures !Dense(RunOf(crc, NOTHING, ops).recs)
  {
    var x := Record(5, [], [], 0);
    hide Encode, Scan, IndexOf, RunOf, After, NextOf, Overwrite, Written;
    var key := seq(16, i => 0) + Encode(crc, x);
    assert |key| == 44;
    var long, short := Append(key, [], 0, SyncFails), Append([], [], 0, Healthy);
    assert OpFits(long) && OpFits(short) && OpFits(Reopen);
    hide OpFits, Dense;
    ops := [long, short, Reopen];
    KeyShowsThrough(crc, key, Encode(crc, x));
    LongThenShort(crc, key);
    var c := After(crc, After(crc, NOTHING, long), short);
    FoundBehind(crc, x, c.behind);
    ReopenFinds(crc, c, x);
    ThreeSteps(crc, NOTHING, long, short, Reopen);
  }

  lemma LongThenShort(crc: Checksum, key: seq<byte>)
    requires |key| >= 16
    ensures var b := Record(0, [], [], 0);
            After(crc, After(crc, NOTHING, Append(key, [], 0, SyncFails)), Append([], [], 0, Healthy))
            == Contents([b], Encode(crc, Record(0, key, [], 0))[28..])
  {
    hide Encode, Scan, IndexOf;
    var frame := Encode(crc, Record(0, key, [], 0));
    assert After(crc, NOTHING, Append(key, [], 0, SyncFails)) == Contents([], frame);
    assert [] + [Record(0, [], [], 0)] == [Record(0, [], [], 0)];
  }

  lemma ReopenFinds(crc: Checksum, c: Contents, x: Record)
    requires |c.recs| == 1 && Scan(crc, c.behind) != [] && Scan(crc, c.behind)[0] == x && x.offset != 1
    ensures !Dense(After(crc, c, Reopen).recs)
  {
    hide Scan;
    assert After(crc, c, Reopen).recs[1] == x;
  }

  lemma RunOfCons(crc: Checksum, c: Contents, x: Op, rest: seq<Op>)
    ensures RunOf(crc, c, [x] + rest) == RunOf(crc, After(crc, c, x), rest)
  {
    hide After;
    assert ([x] + rest)[1..] == rest;
  }

  lemma ThreeSteps(crc: Checksum, c: Contents, x: Op, y: Op, z: Op)
    ensures RunOf(crc, c, [x, y, z]) == After(crc, After(crc, After(crc, c, x), y), z)
  {
    hide After;
    var c1 := After(crc, c, x);
    var c2 := After(crc, c1, y);
    RunOfCons(crc, c, x, [y, z]);
    RunOfCons(crc, c1, y, [z]);
    RunOfCons(crc, c2, z, []);
    assert [x] + [y, z] == [x, y, z] && [y] + [z] == [y, z] && [z] + [] == [z];
  }
}
