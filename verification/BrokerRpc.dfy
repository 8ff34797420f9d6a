/** The broker's RPC methods over real log objects, proved against the functions of module Replication. */
module BrokerRpc {
  import opened Records
  import opened Codec
  import opened Recovery
  import opened Storage
  import opened IndexedRead
  import opened Replication

  /** What a broker's cluster snapshot says about one partition. An empty follower means none. */
  datatype View = Unassigned | Assigned(leader: string, follower: string, followerAddr: string)

  datatype Reply = Refused | Nothing | Committed(base: nat, count: nat)

  /** A log in the state every broker keeps it in: no holes, and below the end of the 64-bit counter. */
  ghost predicate InService(l: Log)
    reads l, l.f
  {
    l.Valid() && Dense(l.recs) && |l.recs| < TWO_64
  }

  /** The two ends of a replication are different objects over different files. */
  ghost predicate Apart(lead: Log, foll: Log) {
    lead != foll && lead.f != foll.f
  }

  predicate PayloadFits(payload: seq<Payload>, ts: int) {
    && -TWO_63 <= ts < TWO_63
    && forall i :: 0 <= i < |payload| ==> |payload[i].key| < TWO_32 && |payload[i].value| < TWO_32
  }

  lemma StampFits(base: nat, payload: seq<Payload>, ts: int)
    requires PayloadFits(payload, ts) && base + |payload| <= TWO_64
    ensures AllFit(Stamp(base, payload, ts))
  {
  }

  // ----- follower side -----

  /** The idempotent append of a dense log, in the terms of Offer. The disk matters only if there is something to write. */
  method OfferTo(l: Log, r: Record, disk: Disk) returns (ok: bool)
    requires l.Valid() && Dense(l.recs) && Fits(r)
    modifies l, l.f
    ensures l.Valid() && Dense(l.recs)
    ensures if disk != Healthy && r.offset == |old(l.recs)| then !ok && l.recs == old(l.recs)
            else ok == Takes(old(l.recs), r) && l.recs == Offer(old(l.recs), r)
  {
    DenseIndex(l.crc, l.recs);
    ok := l.AppendAt(r.offset, r.key, r.value, r.tsNano, disk);
  }

  lemma OfferFirst(log: seq<Record>, msg: seq<Record>, i: nat)
    requires i < |msg|
    ensures OfferAll(log, msg[i..]) == if Takes(log, msg[i]) then OfferAll(Offer(log, msg[i]), msg[i + 1..]) else log
    ensures TakesAll(log, msg[i..]) == (Takes(log, msg[i]) && TakesAll(Offer(log, msg[i]), msg[i + 1..]))
  {
    OfferCons(log, msg[i], msg[i + 1..]);
    assert msg[i..] == [msg[i]] + msg[i + 1..];
  }

  lemma RefusedUnchanged(log: seq<Record>, r: Record)
    ensures !Takes(log, r) ==> Offer(log, r) == log
  {
  }

  /** Appends records in order and stops at the first refusal, with a disk that does not fail. */
  method ApplyAll(l: Log, msg: seq<Record>) returns (ack: bool)
    requires l.Valid() && Dense(l.recs) && AllFit(msg)
    modifies l, l.f
    ensures l.Valid() && Dense(l.recs)
    ensures l.recs == OfferAll(old(l.recs), msg) && ack == TakesAll(old(l.recs), msg)
  {
    var i := 0;
    assert msg[0..] == msg && msg[|msg|..] == [];
    ghost var all := OfferAll(l.recs, msg);
    ghost var takes := TakesAll(l.recs, msg);
    hide OfferAll, TakesAll, Offer, Takes, Frames, IndexOf, NextOf;
    while i < |msg|
      invariant 0 <= i <= |msg|
      invariant l.Valid() && Dense(l.recs)
      invariant OfferAll(l.recs, msg[i..]) == all && TakesAll(l.recs, msg[i..]) == takes
    {
      OfferFirst(l.recs, msg, i);
      RefusedUnchanged(l.recs, msg[i]);
      var ok := OfferTo(l, msg[i], Healthy);
      if !ok {
        return false;
      }
      i := i + 1;
    }
    OfferNothing(l.recs);
    return true;
  }

  /** Appends the records of a message in order and stops at the first refusal or at the first failure of the disk,
      which is to strike record n. */
  method ApplyMessage(l: Log, msg: seq<Record>, n: nat, disk: Disk) returns (ack: bool)
    requires l.Valid() && Dense(l.recs) && AllFit(msg)
    modifies l, l.f
    ensures l.Valid() && Dense(l.recs)
    ensures Sent(l.recs, ack) == Deliver(old(l.recs), msg, if disk == Healthy then Acked else DiskFails(n))
  {
    if disk == Healthy || n >= |msg| {
      ack := ApplyAll(l, msg);
      return;
    }
    OfferParts(l.recs, msg, n);
    OfferFirst(OfferAll(l.recs, msg[..n]), msg, n);
    RefusedUnchanged(OfferAll(l.recs, msg[..n]), msg[n]);
    hide OfferAll, TakesAll, Offer, Frames, IndexOf, NextOf;
    ack := ApplyAll(l, msg[..n]);
    if !ack {
      return;
    }
    ack := OfferTo(l, msg[n], disk);
    if !ack {
      return;
    }
    ack := ApplyAll(l, msg[n + 1..]);
  }

  /** One call to the follower, as the leader sees it: acked or refused; broken with some records applied; or met by
      a disk of the follower that fails in the given way. */
  method CallFollower(l: Log, msg: seq<Record>, o: Outcome, fault: Disk) returns (ok: bool)
    requires l.Valid() && Dense(l.recs) && AllFit(msg) && fault != Healthy
    modifies l, l.f
    ensures l.Valid() && Dense(l.recs)
    ensures Sent(l.recs, ok) == Deliver(old(l.recs), msg, o)
  {
    match o
    case Acked =>
      ok := ApplyMessage(l, msg, 0, Healthy);
    case Broken(n) =>
      var ack := ApplyMessage(l, msg[..if n < |msg| then n else |msg|], 0, Healthy);
      ok := false;
    case DiskFails(n) =>
      ok := ApplyMessage(l, msg, n, fault);
  }

  // ----- leader side -----

  /** Reads from the leader's own log what the follower is missing. */
  method Missing(lead: Log, from: nat, upTo: nat) returns (missing: seq<Record>, ok: bool)
    requires InService(lead) && from < upTo <= |lead.recs|
    ensures ok && missing == lead.recs[from..upTo] && AllFit(missing)
  {
    hide Frames, IndexOf, NextOf, ThroughIndex;
    DenseSlice(lead.crc, lead.recs, lead.f.data[lead.size..], from, upTo - from);
    missing, ok := ReadIndexed(lead, from, upTo - from);
  }

  lemma SendFirst(log: seq<Record>, msgs: seq<seq<Record>>, net: seq<Outcome>)
    requires msgs != [] && net != []
    ensures SendAll(log, msgs, net) ==
            var d := Deliver(log, msgs[0], net[0]);
            if d.ok then SendAll(d.log, msgs[1..], net[1..]) else d
  {
  }

  /** Sends messages one after the other; the i-th call meets the i-th outcome of the network. */
  method SendInOrder(foll: Log, msgs: seq<seq<Record>>, net: seq<Outcome>, fault: Disk) returns (ok: bool)
    requires foll.Valid() && Dense(foll.recs) && fault != Healthy && forall m :: m in msgs ==> AllFit(m)
    modifies foll, foll.f
    ensures foll.Valid() && Dense(foll.recs)
    ensures Sent(foll.recs, ok) == SendAll(old(foll.recs), msgs, net)
  {
    var i := 0;
    assert msgs[0..] == msgs && net[0..] == net;
    hide SendAll, Deliver;
    while i < |msgs|
      invariant 0 <= i <= |msgs| && i <= |net|
      invariant foll.Valid() && Dense(foll.recs)
      invariant SendAll(foll.recs, msgs[i..], net[i..]) == SendAll(old(foll.recs), msgs, net)
    {
      if i == |net| {
        SendNoNetwork(foll.recs, msgs[i..]);
        return false;
      }
      SendFirst(foll.recs, msgs[i..], net[i..]);
      assert msgs[i..][0] == msgs[i] && msgs[i..][1..] == msgs[i + 1..];
      assert net[i..][0] == net[i] && net[i..][1..] == net[i + 1..];
      ok := CallFollower(foll, msgs[i], net[i], fault);
      if !ok {
        return false;
      }
      i := i + 1;
    }
    SendNothing(foll.recs, net[i..]);
    return true;
  }

  lemma SendNoNetwork(log: seq<Record>, msgs: seq<seq<Record>>)
    requires msgs != []
    ensures SendAll(log, msgs, []) == Sent(log, false)
  {
  }

  lemma SendNothing(log: seq<Record>, net: seq<Outcome>)
    ensures SendAll(log, [], net) == Sent(log, true)
  {
  }

  /** Asks the follower how far it got, backfills what it misses, sends the new records, waits for every ack.
      The backfill goes record by record for a single write and as one message for a batch. */
  method ReplicateToFollower(batch: bool, addr: string, lead: Log, foll: Log, recs: seq<Record>, net: seq<Outcome>,
                             fault: Disk)
    returns (ok: bool)
    requires InService(lead) && InService(foll) && Apart(lead, foll)
    requires AllFit(recs) && recs != [] && Contiguous(|lead.recs|, recs) && fault != Healthy
    modifies foll, foll.f
    ensures foll.Valid() && Dense(foll.recs)
    ensures addr == "" ==> !ok && foll.recs == old(foll.recs)
    ensures addr != "" ==> Sent(foll.recs, ok) == Replicate(batch, lead.recs, old(foll.recs), recs, net)
  {
    if addr == "" {
      return false;
    }
    if net == [] || net[0] != Acked {
      return false;
    }
    var base := recs[0].offset;
    var next := foll.NextOffset();
    var missing := [];
    if next < base {
      missing, ok := Missing(lead, next, base);
      assert lead.recs[next..base] == lead.recs[next..];
    }
    PlanFits(batch, missing, recs);
    hide Plan, SendAll, Frames, IndexOf, NextOf, AllFit;
    ok := SendInOrder(foll, Plan(batch, missing, recs), net[1..], fault);
  }

  lemma PlanFits(batch: bool, missing: seq<Record>, recs: seq<Record>)
    requires AllFit(missing) && AllFit(recs)
    ensures forall m :: m in Plan(batch, missing, recs) ==> AllFit(m)
  {
  }

  /** Appends the acked records to the leader's own log, until its disk fails in some way. */
  method CommitLocally(lead: Log, recs: seq<Record>, written: nat, fault: Disk) returns (ok: bool)
    requires InService(lead) && AllFit(recs) && Contiguous(|lead.recs|, recs) && fault != Healthy
    modifies lead, lead.f
    ensures lead.Valid() && Dense(lead.recs)
    ensures ok <==> |recs| <= written
    ensures lead.recs == old(lead.recs) + if ok then recs else recs[..written]
  {
    assert lead.Valid() && Dense(lead.recs);
    hide *;
    var i := 0;
    ghost var before := lead.recs;
    StoredPart(before, recs, 0);
    while i < |recs|
      invariant 0 <= i <= |recs| && i <= written
      invariant lead.Valid() && Dense(lead.recs)
      invariant lead.recs == before + recs[..i]
    {
      StoredPart(before, recs, i);
      var done := StoreNext(lead, recs[i], if i < written then Healthy else fault);
      if !done {
        return false;
      }
      i := i + 1;
    }
    StoredPart(before, recs, |recs|);
    return true;
  }

  /** The record that comes next once i records of a write are stored. */
  lemma StoredPart(before: seq<Record>, recs: seq<Record>, i: nat)
    requires AllFit(recs) && Contiguous(|before|, recs) && i <= |recs|
    ensures before + recs[..0] == before && recs[..|recs|] == recs
    ensures i < |recs| ==>
              && Fits(recs[i]) && recs[i].offset == |before + recs[..i]|
              && (before + recs[..i]) + [recs[i]] == before + recs[..i + 1]
  {
  }

  /** Appends the next record. */
  method StoreNext(lead: Log, r: Record, disk: Disk) returns (ok: bool)
    requires lead.Valid() && Dense(lead.recs) && Fits(r) && r.offset == |lead.recs|
    modifies lead, lead.f
    ensures lead.Valid() && Dense(lead.recs)
    ensures ok <==> disk == Healthy
    ensures lead.recs == if ok then old(lead.recs) + [r] else old(lead.recs)
  {
    hide Frames, IndexOf, NextOf, AllFit, Offer, Takes;
    OfferNext(lead.recs, r);
    ok := OfferTo(lead, r, disk);
  }

  lemma OfferNext(log: seq<Record>, r: Record)
    requires r.offset == |log|
    ensures Takes(log, r) && Offer(log, r) == log + [r]
  {
  }

  /** A write request on the broker `self`: refused unless this broker is the partition's leader, replicated
      first if there is another broker as follower, and appended locally only after every ack.
      Produce is the case of one record without batch; the clock is `ts`. The network and the disk of the follower
      may fail at any point, as `net` says, the disk of the leader after `written` appends. */
  method HandleProduce(self: string, view: View, batch: bool, lead: Log, foll: Log, payload: seq<Payload>, ts: int,
                       net: seq<Outcome>, follDisk: Disk, written: nat, leadDisk: Disk) returns (reply: Reply)
    requires InService(lead) && InService(foll) && Apart(lead, foll) && leadDisk != Healthy && follDisk != Healthy
    requires PayloadFits(payload, ts) && |lead.recs| + |payload| < TWO_64
    requires batch || |payload| == 1
    modifies lead, lead.f, foll, foll.f
    ensures lead.Valid() && Dense(lead.recs) && foll.Valid() && Dense(foll.recs)
    ensures payload == [] ==> reply == Nothing
    ensures payload != [] && (view.Unassigned? || view.leader != self) ==> reply == Refused
    ensures payload == [] || view.Unassigned? || view.leader != self ==>
              lead.recs == old(lead.recs) && foll.recs == old(foll.recs)
    ensures payload != [] && view.Assigned? && view.leader == self ==>
              var recs := Stamp(|old(lead.recs)|, payload, ts);
              var w :=
                if view.follower == "" || view.follower == self then
                  WriteLocally(old(lead.recs), old(foll.recs), recs, written)
                else if view.followerAddr == "" then Write(old(lead.recs), old(foll.recs), false)
                else WriteThrough(batch, old(lead.recs), old(foll.recs), payload, ts, net, written);
              && lead.recs == w.lead && foll.recs == w.foll
              && reply == if w.ok then Committed(|old(lead.recs)|, |recs|) else Refused
    ensures reply.Committed? ==>
              && reply.base == |old(lead.recs)| && reply.count == |payload|
              && HoldsPayload(lead.recs, reply.base, payload, ts)
              && (view.follower != "" && view.follower != self && old(foll.recs) <= old(lead.recs) ==>
                    HoldsPayload(foll.recs, reply.base, payload, ts))
  {
    if payload == [] {
      return Nothing;
    }
    if view.Unassigned? || view.leader != self {
      return Refused;
    }
    var base := lead.NextOffset();
    var recs := Stamp(base, payload, ts);
    StampFits(base, payload, ts);
    ghost var lead0, foll0 := lead.recs, foll.recs;
    hide HoldsPayload;
    if view.follower != "" && view.follower != self {
      var acked := ReplicateToFollower(batch, view.followerAddr, lead, foll, recs, net, follDisk);
      if !acked {
        return Refused;
      }
    }
    var stored := CommitLocally(lead, recs, written, leadDisk);
    if !stored {
      return Refused;
    }
    if view.follower == "" || view.follower == self {
      StampCarries(base, payload, ts);
      AppendedIsHeld(lead0, recs, payload, ts);
    } else {
      CommittedAsSent(batch, lead0, foll0, payload, ts, net, written);
    }
    return Committed(base, |recs|);
  }

  // ----- consumers -----

  /** What a fetch of a dense log answers: a slice of it and the offset to ask for next. */
  datatype Page = Page(recs: seq<Record>, next: nat)

  function PageOf(log: seq<Record>, offset: nat, max: int): (page: Page)
    ensures offset <= |log| ==> page.recs <= log[offset..] && page.next == offset + |page.recs|
    ensures offset > |log| ==> page.recs == [] && page.next == offset
    ensures offset < |log| ==> |page.recs| == if 0 < max < |log| - offset then max else |log| - offset
  {
    if offset >= |log| then Page([], offset)
    else
      var end := if 0 < max < |log| - offset then offset + max else |log|;
      Page(log[offset..end], end)
  }

  lemma FromDense(log: seq<Record>, offset: nat)
    requires Dense(log)
    ensures From(log, offset) == if offset <= |log| then log[offset..] else []
  {
    hide From;
    if offset <= |log| {
      var a, b := log[..offset], log[offset..];
      FromConcat(a, b, offset);
      assert forall i :: 0 <= i < |a| ==> a[i].offset < offset;
      FromDropsAll(a, offset);
      assert forall i :: 0 <= i < |b| ==> b[i].offset >= offset;
      FromKeepsAll(b, offset);
      assert a + b == log;
    } else {
      FromDropsAll(log, offset);
    }
  }

  /** The offset a page tells its reader to ask for next, a 64-bit number. */
  function NextAfter(recs: seq<Record>, offset: nat): nat {
    if recs == [] then offset else (recs[|recs| - 1].offset + 1) % TWO_64
  }

  /** A read request: only the leader answers, with what its indexed read finds. With nothing stale behind the
      records, or if the read stops inside them, that is a page of its log. */
  method HandleFetch(self: string, view: View, lead: Log, offset: nat, max: int) returns (ok: bool, page: Page)
    requires InService(lead) && offset < TWO_64
    ensures view.Unassigned? || view.leader != self ==> !ok
    ensures view.Assigned? && view.leader == self ==>
              var read := ThroughIndex(lead.crc, lead.recs, lead.f.data[lead.size..], offset, max);
              ok == read.ok && (ok ==> page == Page(read.recs, NextAfter(read.recs, offset)))
    ensures view.Assigned? && view.leader == self && (lead.Tight() || (0 < max && offset + max <= |lead.recs|)) ==>
              ok && page == PageOf(lead.recs, offset, max)
  {
    hide Frames, IndexOf, NextOf, PageOf, ThroughIndex, NextAfter;
    page := Page([], offset);
    if view.Unassigned? || view.leader != self {
      return false, page;
    }
    ghost var stale := lead.f.data[lead.size..];
    if stale == [] || (0 < max && offset + max <= |lead.recs|) {
      PageThroughIndex(lead.crc, lead.recs, stale, offset, max);
    }
    var recs, read := ReadIndexed(lead, offset, max);
    if !read {
      return false, page;
    }
    var next := NextWanted(recs, offset);
    return true, Page(recs, next);
  }

  method NextWanted(recs: seq<Record>, offset: nat) returns (next: nat)
    ensures next == NextAfter(recs, offset)
  {
    next := offset;
    for i := 0 to |recs|
      invariant next == if i == 0 then offset else (recs[i - 1].offset + 1) % TWO_64
    {
      next := (recs[i].offset + 1) % TWO_64;
    }
  }

  lemma SeekableIfDense(recs: seq<Record>)
    requires Dense(recs)
    ensures Seekable(recs) && (recs != [] ==> recs[|recs| - 1].offset + 1 == |recs|)
  {
  }

  /** What the indexed read of a dense log finds is a page of it, unless it gets to see stale bytes. */
  lemma PageThroughIndex(crc: Checksum, recs: seq<Record>, stale: seq<byte>, offset: nat, max: int)
    requires AllFit(recs) && Dense(recs) && |recs| < TWO_64 && offset < TWO_64
    requires stale == [] || (0 < max && offset + max <= |recs|)
    ensures var read := ThroughIndex(crc, recs, stale, offset, max);
            read.ok && Page(read.recs, NextAfter(read.recs, offset)) == PageOf(recs, offset, max)
  {
    hide ThroughIndex, From, Frames, IndexOf, AllFit;
    if stale == [] {
      SeekableIfDense(recs);
      IndexedReadIsFullScan(crc, recs, offset, max);
      hide Dense;
      FromDense(recs, offset);
    } else {
      DenseSlice(crc, recs, stale, offset, max);
    }
  }
}
