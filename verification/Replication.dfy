/** What one replicated write does to the logs of its two brokers, as functions of those logs. */
module Replication {
  import opened Basics
  import opened Records

  // ----- messages offered to one log -----

  /** A message is applied record by record and stops at the first refusal. */
  function OfferAll(log: seq<Record>, msg: seq<Record>): (log': seq<Record>)
    ensures log <= log'
    ensures Dense(log) ==> Dense(log')
    decreases |msg|
  {
    if msg == [] || !Takes(log, msg[0]) then log else OfferAll(Offer(log, msg[0]), msg[1..])
  }

  predicate TakesAll(log: seq<Record>, msg: seq<Record>)
    decreases |msg|
  {
    msg == [] || (Takes(log, msg[0]) && TakesAll(Offer(log, msg[0]), msg[1..]))
  }

  /** a continued by what b holds beyond it. */
  function Extend(a: seq<Record>, b: seq<Record>): (c: seq<Record>)
    ensures a <= c && |c| >= |b|
    ensures |a| <= |b| ==> |c| == |b|
    ensures a <= b ==> c == b
    ensures |b| <= |a| ==> c == a
  {
    if |a| < |b| then a + b[|a|..] else a
  }

  lemma OfferCons(log: seq<Record>, r: Record, rest: seq<Record>)
    ensures OfferAll(log, [r] + rest) == if Takes(log, r) then OfferAll(Offer(log, r), rest) else log
    ensures TakesAll(log, [r] + rest) == (Takes(log, r) && TakesAll(Offer(log, r), rest))
  {
    assert ([r] + rest)[1..] == rest;
  }

  lemma {:induction false} OfferContiguous(log: seq<Record>, base: nat, msg: seq<Record>)
    requires Contiguous(base, msg) && base <= |log|
    ensures TakesAll(log, msg)
    ensures OfferAll(log, msg) == if base + |msg| <= |log| then log else log + msg[|log| - base..]
    decreases |msg|
  {
    if msg != [] {
      var r, later := msg[0], msg[1..];
      assert msg == [r] + later;
      OfferCons(log, r, later);
      OfferContiguous(Offer(log, r), base + 1, later);
      hide OfferAll, TakesAll;
      if base == |log| {
        assert later[0..] == later && msg[0..] == msg;
        Associate(log, [r], later);
      } else if base + |msg| > |log| {
        assert later[|log| - (base + 1)..] == msg[|log| - base..];
      }
    }
  }

  lemma OfferNothing(log: seq<Record>)
    ensures OfferAll(log, []) == log && TakesAll(log, [])
  {
  }

  /** A message is taken record by record, so also in two parts. */
  lemma {:induction false} OfferParts(log: seq<Record>, msg: seq<Record>, n: nat)
    requires n <= |msg|
    ensures TakesAll(log, msg[..n]) ==>
              && OfferAll(log, msg) == OfferAll(OfferAll(log, msg[..n]), msg[n..])
              && TakesAll(log, msg) == TakesAll(OfferAll(log, msg[..n]), msg[n..])
    ensures !TakesAll(log, msg[..n]) ==> !TakesAll(log, msg) && OfferAll(log, msg) == OfferAll(log, msg[..n])
    decreases n
  {
    if n == 0 {
      OfferNothing(log);
      assert msg[..0] == [] && msg[0..] == msg;
    } else {
      var rest := msg[1..];
      assert msg[..n][1..] == rest[..n - 1] && msg[n..] == rest[n - 1..];
      if Takes(log, msg[0]) {
        OfferParts(Offer(log, msg[0]), rest, n - 1);
      }
    }
  }

  // ----- the network -----

  /** One call to the follower: answered; or broken after the follower applied some of its records; or met by a disk
      of the follower that fails at one of its records, if that one has to be written. */
  datatype Outcome = Acked | Broken(applied: nat) | DiskFails(at: nat)

  datatype Sent = Sent(log: seq<Record>, ok: bool)

  function Deliver(log: seq<Record>, msg: seq<Record>, o: Outcome): Sent {
    match o
    case Acked => Sent(OfferAll(log, msg), TakesAll(log, msg))
    case Broken(n) => Sent(OfferAll(log, msg[..if n < |msg| then n else |msg|]), false)
    case DiskFails(n) =>
      if StrikesAt(log, msg, n) then Sent(OfferAll(log, msg[..n]), false) else Sent(OfferAll(log, msg), TakesAll(log, msg))
  }

  /** The follower gets to record n and has to write it. */
  predicate StrikesAt(log: seq<Record>, msg: seq<Record>, n: nat) {
    n < |msg| && TakesAll(log, msg[..n]) && msg[n].offset == |OfferAll(log, msg[..n])|
  }

  /** What a call with this outcome looks like to the leader: acked or broken. */
  function Seen(log: seq<Record>, msg: seq<Record>, o: Outcome): (seen: Outcome)
    ensures seen.Acked? || seen.Broken?
    ensures o.Acked? ==> seen.Acked?
  {
    match o
    case DiskFails(n) => if StrikesAt(log, msg, n) then Broken(n) else Acked
    case _ => o
  }

  lemma SeenIsDelivered(log: seq<Record>, msg: seq<Record>, o: Outcome)
    ensures Deliver(log, msg, Seen(log, msg, o)) == Deliver(log, msg, o)
  {
  }

  /** Calls in order until one fails; a network with no outcome left fails too. */
  function SendAll(log: seq<Record>, msgs: seq<seq<Record>>, net: seq<Outcome>): Sent
    decreases |msgs|
  {
    if msgs == [] then Sent(log, true)
    else if net == [] then Sent(log, false)
    else
      var d := Deliver(log, msgs[0], net[0]);
      if d.ok then SendAll(d.log, msgs[1..], net[1..]) else d
  }

  function Each(recs: seq<Record>): (msgs: seq<seq<Record>>)
    ensures |msgs| == |recs|
  {
    seq(|recs|, i requires 0 <= i < |recs| => [recs[i]])
  }

  /** The calls of one write: the backfill record by record or in one batch, then the new records. */
  function Plan(batch: bool, missing: seq<Record>, recs: seq<Record>): (msgs: seq<seq<Record>>)
    ensures msgs != [] && msgs[|msgs| - 1] == recs
  {
    (if !batch then Each(missing) else if missing == [] then [] else [missing]) + [recs]
  }

  /** Asks the follower how far it got, sends what it misses of the leader's log, then the new records. */
  function Replicate(batch: bool, lead: seq<Record>, foll: seq<Record>, recs: seq<Record>, net: seq<Outcome>): Sent {
    if net == [] || net[0] != Acked then Sent(foll, false)
    else
      var missing := if |foll| < |lead| then lead[|foll|..] else [];
      SendAll(foll, Plan(batch, missing, recs), net[1..])
  }

  // ----- what a replication leaves on the follower -----

  function Flatten(msgs: seq<seq<Record>>): seq<Record> {
    if msgs == [] then [] else msgs[0] + Flatten(msgs[1..])
  }

  lemma {:induction false} FlattenEach(recs: seq<Record>, last: seq<Record>)
    ensures Flatten(Each(recs) + [last]) == recs + last
  {
    if recs == [] {
      assert Flatten([last]) == last + Flatten([]);
      assert Each(recs) + [last] == [last];
    } else {
      FlattenEach(recs[1..], last);
      assert (Each(recs) + [last])[1..] == Each(recs[1..]) + [last];
    }
  }

  lemma FlattenPlan(batch: bool, missing: seq<Record>, recs: seq<Record>)
    ensures Flatten(Plan(batch, missing, recs)) == missing + recs
  {
    if !batch {
      FlattenEach(missing, recs);
    } else if missing == [] {
      assert Plan(batch, missing, recs) == [recs];
      assert Flatten([recs]) == recs + Flatten([]);
    } else {
      assert Plan(batch, missing, recs)[1..] == [recs];
      assert Flatten([recs]) == recs + Flatten([]);
    }
  }

  lemma OfferConcat(log: seq<Record>, base: nat, a: seq<Record>, b: seq<Record>)
    requires Contiguous(base, a) && base <= |log|
    ensures base + |a| <= |OfferAll(log, a)|
    ensures OfferAll(OfferAll(log, a), b) == OfferAll(log, a + b)
  {
    OfferContiguous(log, base, a);
    assert (a + b)[..|a|] == a && (a + b)[|a|..] == b;
    OfferParts(log, a + b, |a|);
    hide OfferAll, TakesAll;
  }

  /** One call applies a prefix of its message; all of it when it succeeds. */
  lemma DeliverPrefix(log: seq<Record>, base: nat, m: seq<Record>, o: Outcome) returns (k: nat)
    requires Contiguous(base, m) && base <= |log|
    ensures k <= |m| && Deliver(log, m, o).log == OfferAll(log, m[..k])
    ensures Deliver(log, m, o).ok ==> k == |m| && base + |m| <= |Deliver(log, m, o).log|
    ensures o == Acked ==> Deliver(log, m, o).ok
  {
    OfferContiguous(log, base, m);
    SeenIsDelivered(log, m, o);
    hide OfferAll, TakesAll, StrikesAt;
    assert m[..|m|] == m;
    match Seen(log, m, o)
    case Acked => k := |m|;
    case Broken(n) => k := if n < |m| then n else |m|;
  }

  /** Whatever network and disk do, a prefix of the records sent is applied; all of them when the send succeeds. */
  lemma {:induction false} SendsPrefix(log: seq<Record>, base: nat, msgs: seq<seq<Record>>, net: seq<Outcome>)
    returns (k: nat)
    requires Contiguous(base, Flatten(msgs)) && base <= |log|
    ensures k <= |Flatten(msgs)|
    ensures SendAll(log, msgs, net).log == OfferAll(log, Flatten(msgs)[..k])
    ensures SendAll(log, msgs, net).ok ==> k == |Flatten(msgs)|
    ensures |net| >= |msgs| && (forall i :: 0 <= i < |msgs| ==> net[i] == Acked) ==> SendAll(log, msgs, net).ok
    decreases |msgs|
  {
    hide OfferAll, TakesAll, Deliver;
    OfferNothing(log);
    var all := Flatten(msgs);
    if msgs == [] || net == [] {
      k := 0;
      assert all[..0] == [];
    } else {
      var m, rest := msgs[0], Flatten(msgs[1..]);
      ContiguousParts(base, m, rest);
      k := DeliverPrefix(log, base, m, net[0]);
      assert all[..k] == m[..k];
      if Deliver(log, m, net[0]).ok {
        assert m[..k] == m;
        var j := SendsPrefix(OfferAll(log, m), base + |m|, msgs[1..], net[1..]);
        OfferConcat(log, base, m, rest[..j]);
        k := |m| + j;
        assert all[..k] == m + rest[..j];
      }
    }
  }

  lemma ContiguousParts(base: nat, a: seq<Record>, b: seq<Record>)
    requires Contiguous(base, a + b)
    ensures Contiguous(base, a) && Contiguous(base + |a|, b)
  {
    forall i | 0 <= i < |b|
      ensures b[i].offset == base + |a| + i
    {
      assert (a + b)[|a| + i] == b[i];
    }
    forall i | 0 <= i < |a|
      ensures a[i].offset == base + i
    {
      assert (a + b)[i] == a[i];
    }
  }

  /** A replication, whatever the follower held before and wherever the network broke, only ever continues
      the follower's log with a stretch of the leader's log and the new records; all of it when it succeeds. */
  lemma ReplicationExtends(batch: bool, lead: seq<Record>, foll: seq<Record>, recs: seq<Record>, net: seq<Outcome>)
    returns (k: nat)
    requires Dense(lead) && Contiguous(|lead|, recs)
    ensures k <= |lead + recs|
    ensures var s := Replicate(batch, lead, foll, recs, net);
            && s.log == Extend(foll, (lead + recs)[..k])
            && (s.ok ==> s.log == Extend(foll, lead + recs))
    ensures |net| > |lead| + 1 && (forall i :: 0 <= i < |net| ==> net[i] == Acked) ==>
              Replicate(batch, lead, foll, recs, net).ok
  {
    hide OfferAll, TakesAll, SendAll, Flatten, Plan, Extend, Dense, Contiguous;
    k := 0;
    var whole := lead + recs;
    ExtendNothing(foll, whole);
    if net != [] && net[0] == Acked {
      var base := if |foll| < |lead| then |foll| else |lead|;
      var missing := if |foll| < |lead| then lead[|foll|..] else [];
      var msgs := Plan(batch, missing, recs);
      PlanLength(batch, missing, recs);
      PlanIsStretch(batch, lead, foll, recs);
      var j := SendsPrefix(foll, base, msgs, net[1..]);
      k := base + j;
      assert whole[base..][..j] == whole[base..k];
      OfferStretch(foll, whole, base, k);
      assert whole[..|whole|] == whole;
    }
  }

  lemma ExtendNothing(a: seq<Record>, b: seq<Record>)
    ensures Extend(a, b[..0]) == a
  {
  }

  /** The messages of a replication spell the leader's log and the new records from where the follower ends. */
  lemma PlanIsStretch(batch: bool, lead: seq<Record>, foll: seq<Record>, recs: seq<Record>)
    requires Dense(lead) && Contiguous(|lead|, recs)
    ensures var base := if |foll| < |lead| then |foll| else |lead|;
            var missing := if |foll| < |lead| then lead[|foll|..] else [];
            && Flatten(Plan(batch, missing, recs)) == (lead + recs)[base..]
            && Contiguous(base, (lead + recs)[base..])
            && Dense(lead + recs)
  {
    hide Flatten, Plan, Dense, Contiguous;
    var base := if |foll| < |lead| then |foll| else |lead|;
    var missing := if |foll| < |lead| then lead[|foll|..] else [];
    FlattenPlan(batch, missing, recs);
    assert missing + recs == (lead + recs)[base..];
    WholeIsDense(lead, recs, base);
  }

  lemma WholeIsDense(lead: seq<Record>, recs: seq<Record>, base: nat)
    requires Dense(lead) && Contiguous(|lead|, recs) && base <= |lead|
    ensures Dense(lead + recs) && Contiguous(base, (lead + recs)[base..])
  {
    var whole := lead + recs;
    forall i | 0 <= i < |whole|
      ensures whole[i].offset == i
    {
      assert whole[i] == if i < |lead| then lead[i] else recs[i - |lead|];
    }
  }

  lemma PlanLength(batch: bool, missing: seq<Record>, recs: seq<Record>)
    ensures |Plan(batch, missing, recs)| <= |missing| + 1
  {
  }

  lemma OfferStretch(foll: seq<Record>, whole: seq<Record>, base: nat, k: nat)
    requires Dense(whole) && base <= k <= |whole| && base <= |foll|
    ensures OfferAll(foll, whole[base..k]) == Extend(foll, whole[..k])
  {
    hide OfferAll, TakesAll;
    var stretch := whole[base..k];
    assert Contiguous(base, stretch) by {
      assert forall i :: 0 <= i < |stretch| ==> stretch[i] == whole[base + i];
    }
    hide Dense, Contiguous;
    OfferContiguous(foll, base, stretch);
    if k > |foll| {
      assert stretch[|foll| - base..] == whole[..k][|foll|..];
    }
  }

  // ----- consequences -----

  /** An acked replication leaves an entry at every offset up to the last new one, whatever the follower
      held, and never takes anything away from it. */
  lemma AckCovers(batch: bool, lead: seq<Record>, foll: seq<Record>, recs: seq<Record>, net: seq<Outcome>)
    requires Dense(lead) && Contiguous(|lead|, recs)
    ensures var s := Replicate(batch, lead, foll, recs, net);
            foll <= s.log && (s.ok ==> |s.log| >= |lead| + |recs|)
  {
    var k := ReplicationExtends(batch, lead, foll, recs, net);
  }

  /** A follower that is a prefix of its leader becomes equal to it, new records included, when the
      replication succeeds, and stays a prefix of that when it fails anywhere. */
  lemma CatchUp(batch: bool, lead: seq<Record>, foll: seq<Record>, recs: seq<Record>, net: seq<Outcome>)
    requires Dense(lead) && Contiguous(|lead|, recs) && foll <= lead
    ensures var s := Replicate(batch, lead, foll, recs, net);
            && foll <= s.log <= lead + recs
            && (s.ok ==> s.log == lead + recs)
  {
    var k := ReplicationExtends(batch, lead, foll, recs, net);
  }

  lemma ExtendComparable(a: seq<Record>, b: seq<Record>)
    ensures Comparable(Extend(a, b), b) <==> Comparable(a, b)
  {
    if |a| < |b| && Comparable(Extend(a, b), b) {
      assert Extend(a, b) == b;
      assert a == b[..|a|];
    }
  }

  /** The follower does not compare contents. An acked write leaves the two logs in agreement exactly when
      the follower's log agreed with the leader's and was either not ahead of it or ahead only
      with the very records of this write. */
  lemma AgreementIff(batch: bool, lead: seq<Record>, foll: seq<Record>, recs: seq<Record>, net: seq<Outcome>)
    requires Dense(lead) && Contiguous(|lead|, recs)
    requires Replicate(batch, lead, foll, recs, net).ok
    ensures Comparable(Replicate(batch, lead, foll, recs, net).log, lead + recs) <==>
            if |foll| <= |lead| then foll <= lead
            else lead <= foll && Comparable(foll[|lead|..], recs)
  {
    var k := ReplicationExtends(batch, lead, foll, recs, net);
    ExtendComparable(foll, lead + recs);
    ComparableAgree(foll, lead + recs);
    ComparableAgree(foll, lead);
    if |foll| > |lead| {
      ComparableAgree(foll[|lead|..], recs);
      if lead <= foll && Comparable(foll[|lead|..], recs) {
        forall i | 0 <= i < |foll| && i < |lead + recs|
          ensures foll[i] == (lead + recs)[i]
        {
          assert i >= |lead| ==> foll[|lead|..][i - |lead|] == recs[i - |lead|];
        }
      }
      if Comparable(foll, lead + recs) {
        forall i | 0 <= i < |foll[|lead|..]| && i < |recs|
          ensures foll[|lead|..][i] == recs[i]
        {
          assert foll[|lead| + i] == (lead + recs)[|lead| + i];
        }
        assert forall i :: 0 <= i < |lead| ==> foll[i] == (lead + recs)[i];
      }
    }
  }

  // ----- whole writes -----

  datatype Payload = Payload(key: seq<byte>, value: seq<byte>)

  /** Contiguous offsets and one timestamp for the records of a write. */
  function Stamp(base: nat, payload: seq<Payload>, ts: int): (recs: seq<Record>)
    ensures |recs| == |payload| && Contiguous(base, recs)
  {
    seq(|payload|, i requires 0 <= i < |payload| => Record(base + i, payload[i].key, payload[i].value, ts))
  }

  /** The records are those of the payload, each key and value in its place, from offset base on and with one timestamp. */
  predicate CarriesPayload(recs: seq<Record>, base: nat, payload: seq<Payload>, ts: int) {
    && |recs| == |payload|
    && forall i :: 0 <= i < |recs| ==>
         && recs[i].offset == base + i && recs[i].tsNano == ts
         && recs[i].key == payload[i].key && recs[i].value == payload[i].value
  }

  /** The log holds them there. */
  predicate HoldsPayload(log: seq<Record>, base: nat, payload: seq<Payload>, ts: int) {
    base + |payload| <= |log| && CarriesPayload(log[base..base + |payload|], base, payload, ts)
  }

  lemma StampCarries(base: nat, payload: seq<Payload>, ts: int)
    ensures CarriesPayload(Stamp(base, payload, ts), base, payload, ts)
  {
  }

  lemma AppendedIsHeld(log: seq<Record>, recs: seq<Record>, payload: seq<Payload>, ts: int)
    requires CarriesPayload(recs, |log|, payload, ts)
    ensures HoldsPayload(log + recs, |log|, payload, ts)
  {
    assert (log + recs)[|log|..|log| + |payload|] == recs;
  }

  /** A committed write is in the leader's log as the client sent it, and in the follower's log if that one was a prefix
      of the leader's before. */
  lemma CommittedAsSent(batch: bool, lead: seq<Record>, foll: seq<Record>, payload: seq<Payload>, ts: int,
                        net: seq<Outcome>, written: nat)
    requires Dense(lead) && WriteThrough(batch, lead, foll, payload, ts, net, written).ok
    ensures var w := WriteThrough(batch, lead, foll, payload, ts, net, written);
            && HoldsPayload(w.lead, |lead|, payload, ts)
            && (foll <= lead ==> HoldsPayload(w.foll, |lead|, payload, ts))
  {
    hide HoldsPayload, CarriesPayload, Replicate, Dense;
    var recs := Stamp(|lead|, payload, ts);
    StampCarries(|lead|, payload, ts);
    AppendedIsHeld(lead, recs, payload, ts);
    if foll <= lead {
      CatchUp(batch, lead, foll, recs, net);
    }
  }

  datatype Write = Write(lead: seq<Record>, foll: seq<Record>, ok: bool)

  /** The local appends of a write, of which the leader's disk completes `written`. */
  function WriteLocally(lead: seq<Record>, foll: seq<Record>, recs: seq<Record>, written: nat): Write {
    if written < |recs| then Write(lead + recs[..written], foll, false) else Write(lead + recs, foll, true)
  }

  /** One write through a leader that has a follower: replicate first, append locally only after the ack. */
  function WriteThrough(batch: bool, lead: seq<Record>, foll: seq<Record>, payload: seq<Payload>, ts: int,
                        net: seq<Outcome>, written: nat): Write {
    var recs := Stamp(|lead|, payload, ts);
    var s := Replicate(batch, lead, foll, recs, net);
    if s.ok then WriteLocally(lead, s.log, recs, written) else Write(lead, s.log, false)
  }

  // ----- how far a broken write got -----

  function Calm(n: nat): (net: seq<Outcome>)
    ensures |net| == n && forall i :: 0 <= i < n ==> net[i] == Acked
  {
    seq(n, i => Acked)
  }

  lemma {:induction false} EachBroken(log: seq<Record>, missing: seq<Record>, recs: seq<Record>, i: nat)
    requires Contiguous(|log|, missing) && i <= |missing|
    ensures SendAll(log, Each(missing) + [recs], Calm(i) + [Broken(0)]) == Sent(log + missing[..i], false)
    decreases i
  {
    hide OfferAll, TakesAll;
    var msgs, net := Each(missing) + [recs], Calm(i) + [Broken(0)];
    OfferNothing(log);
    if i == 0 {
      assert msgs[0][..0] == [];
      assert log + missing[..0] == log;
    } else {
      var r, later := missing[0], missing[1..];
      assert msgs[0] == [r] && msgs[1..] == Each(later) + [recs];
      assert net[0] == Acked && net[1..] == Calm(i - 1) + [Broken(0)];
      OfferOne(log, r);
      EachBroken(log + [r], later, recs, i - 1);
      assert log + missing[..i] == (log + [r]) + later[..i - 1];
    }
  }

  lemma OfferOne(log: seq<Record>, r: Record)
    requires r.offset == |log|
    ensures OfferAll(log, [r]) == log + [r] && TakesAll(log, [r])
  {
    OfferNothing(log + [r]);
    assert [r][1..] == [];
  }

  /** A single write backfills record by record: after the question and i acks, the follower has i more records. */
  lemma SinglesBackfill(lead: seq<Record>, foll: seq<Record>, recs: seq<Record>, i: nat)
    requires Dense(lead) && foll <= lead && |foll| + i <= |lead|
    ensures Replicate(false, lead, foll, recs, [Acked] + (Calm(i) + [Broken(0)])) == Sent(lead[..|foll| + i], false)
  {
    var missing := if |foll| < |lead| then lead[|foll|..] else [];
    hide SendAll, OfferAll, TakesAll;
    EachBroken(foll, missing, recs, i);
    var net := [Acked] + (Calm(i) + [Broken(0)]);
    assert net[1..] == Calm(i) + [Broken(0)];
    assert foll + missing[..i] == lead[..|foll| + i];
  }

  /** A batch backfills in one message: broken after i of its records, it leaves i more. */
  lemma BatchBackfill(lead: seq<Record>, foll: seq<Record>, recs: seq<Record>, i: nat)
    requires Dense(lead) && foll <= lead && |foll| < |lead| && |foll| + i <= |lead|
    ensures Replicate(true, lead, foll, recs, [Acked, Broken(i)]) == Sent(lead[..|foll| + i], false)
  {
    var missing := lead[|foll|..];
    hide OfferAll, TakesAll;
    OfferContiguous(foll, |foll|, missing[..i]);
    assert missing[..i][0..] == missing[..i];
    assert foll + missing[..i] == lead[..|foll| + i];
    assert [Acked, Broken(i)][1..] == [Broken(i)];
  }

  /** A message with a gap in it is applied up to the gap: some first k of its records are taken, what the log gained is
      among them, and record k lies beyond the end of the log. */
  lemma {:induction false} StopsAtGap(log: seq<Record>, msg: seq<Record>) returns (k: nat)
    ensures k <= |msg|
    ensures forall j :: 0 <= j < k ==> msg[j].offset < |OfferAll(log, msg)|
    ensures forall i :: |log| <= i < |OfferAll(log, msg)| ==> OfferAll(log, msg)[i] in msg[..k]
    ensures if k < |msg| then !TakesAll(log, msg) && msg[k].offset > |OfferAll(log, msg)| else TakesAll(log, msg)
    decreases |msg|
  {
    if msg == [] || !Takes(log, msg[0]) {
      k := 0;
    } else {
      var r, later := msg[0], msg[1..];
      assert msg == [r] + later;
      OfferCons(log, r, later);
      var j := StopsAtGap(Offer(log, r), later);
      k := j + 1;
      hide OfferAll, TakesAll;
      assert msg[..k] == [r] + later[..j];
      forall i | |log| <= i < |OfferAll(log, msg)|
        ensures OfferAll(log, msg)[i] in msg[..k]
      {
        if i < |Offer(log, r)| {
          assert OfferAll(log, msg)[i] == Offer(log, r)[i] == r;
        }
      }
    }
  }

  /** The leader's log never passes the follower's during a write: whatever fails, every record the write
      added to the leader has an entry at its offset on the follower. */
  lemma WriteCovers(batch: bool, lead: seq<Record>, foll: seq<Record>, payload: seq<Payload>, ts: int,
                    net: seq<Outcome>, written: nat)
    requires Dense(lead)
    ensures var w := WriteThrough(batch, lead, foll, payload, ts, net, written);
            && lead <= w.lead && foll <= w.foll && Dense(w.lead)
            && (w.lead != lead ==> |w.foll| >= |w.lead|)
            && (w.ok <==> Replicate(batch, lead, foll, Stamp(|lead|, payload, ts), net).ok && |payload| <= written)
            && (w.ok ==> w.lead == lead + Stamp(|lead|, payload, ts))
  {
    AckCovers(batch, lead, foll, Stamp(|lead|, payload, ts), net);
  }

  /** The same records written one Produce after the other, without faults. */
  function Singles(lead: seq<Record>, foll: seq<Record>, payload: seq<Payload>, ts: int): Write
    decreases |payload|
  {
    if payload == [] then Write(lead, foll, true)
    else
      var w := WriteThrough(false, lead, foll, payload[..1], ts, Calm(|lead| + 2), 1);
      if !w.ok then w else Singles(w.lead, w.foll, payload[1..], ts)
  }

  lemma CalmWrite(batch: bool, lead: seq<Record>, foll: seq<Record>, payload: seq<Payload>, ts: int, n: nat)
    requires Dense(lead) && n > |lead| + 1
    ensures var whole := lead + Stamp(|lead|, payload, ts);
            WriteThrough(batch, lead, foll, payload, ts, Calm(n), |payload|) == Write(whole, Extend(foll, whole), true)
  {
    var k := ReplicationExtends(batch, lead, foll, Stamp(|lead|, payload, ts), Calm(n));
  }

  lemma ExtendTwice(a: seq<Record>, b: seq<Record>, c: seq<Record>)
    requires b <= c
    ensures Extend(Extend(a, b), c) == Extend(a, c)
  {
    if |a| < |b| {
      if |b| < |c| {
        Associate(a, b[|a|..], c[|b|..]);
        assert c[|a|..] == b[|a|..] + c[|b|..];
      } else {
        assert b == c;
      }
    }
  }

  lemma {:induction false} SinglesExtend(lead: seq<Record>, foll: seq<Record>, payload: seq<Payload>, ts: int)
    requires Dense(lead) && payload != []
    ensures var whole := lead + Stamp(|lead|, payload, ts);
            Singles(lead, foll, payload, ts) == Write(whole, Extend(foll, whole), true)
    decreases |payload|
  {
    hide WriteThrough, Extend;
    var one := lead + Stamp(|lead|, payload[..1], ts);
    var whole := lead + Stamp(|lead|, payload, ts);
    CalmWrite(false, lead, foll, payload[..1], ts, |lead| + 2);
    assert whole == one + Stamp(|one|, payload[1..], ts);
    if |payload| > 1 {
      SinglesExtend(one, Extend(foll, one), payload[1..], ts);
      ExtendTwice(foll, one, whole);
    } else {
      assert payload[1..] == [] && whole == one;
    }
  }

  /** Without faults, one batch and the same records sent one by one leave the same two logs and give the
      batch the offset of the first single, from any state of the follower. */
  lemma BatchEqualsSingles(lead: seq<Record>, foll: seq<Record>, payload: seq<Payload>, ts: int, n: nat)
    requires Dense(lead) && payload != [] && n > |lead| + 1
    ensures WriteThrough(true, lead, foll, payload, ts, Calm(n), |payload|) == Singles(lead, foll, payload, ts)
    ensures Stamp(|lead|, payload, ts)[0] == Stamp(|lead|, payload[..1], ts)[0]
  {
    CalmWrite(true, lead, foll, payload, ts, n);
    SinglesExtend(lead, foll, payload, ts);
  }

  // ----- asynchronous delivery -----

  /** A message cut from a history: any of its records, in any order. */
  predicate CutFrom(history: seq<Record>, msg: seq<Record>) {
    forall i :: 0 <= i < |msg| ==> msg[i].offset < |history| && msg[i] == history[msg[i].offset]
  }

  /** Messages delivered one after the other, each applied wholly, partly or not at all. */
  function DeliverMany(log: seq<Record>, msgs: seq<seq<Record>>, net: seq<Outcome>): seq<Record>
    decreases |msgs|
  {
    if msgs == [] || net == [] then log
    else DeliverMany(Deliver(log, msgs[0], net[0]).log, msgs[1..], net[1..])
  }

  lemma {:induction false} OfferCut(history: seq<Record>, log: seq<Record>, msg: seq<Record>)
    requires CutFrom(history, msg) && log <= history
    ensures log <= OfferAll(log, msg) <= history
    decreases |msg|
  {
    if msg != [] && Takes(log, msg[0]) {
      OfferCut(history, Offer(log, msg[0]), msg[1..]);
    }
  }

  /** Replication messages of one leader history may arrive in any order, twice or never: a follower that
      starts as a prefix of the history stays one and never shrinks. */
  lemma {:induction false} AnyDeliveryKeepsPrefix(history: seq<Record>, log: seq<Record>,
                                                  msgs: seq<seq<Record>>, net: seq<Outcome>)
    requires log <= history
    requires forall m :: m in msgs ==> CutFrom(history, m)
    ensures log <= DeliverMany(log, msgs, net) <= history
    decreases |msgs|
  {
    if msgs != [] && net != [] {
      var m := msgs[0];
      assert m in msgs;
      SeenIsDelivered(log, m, net[0]);
      var n := match Seen(log, m, net[0]) case Acked => |m| case Broken(n) => if n < |m| then n else |m|;
      assert m[..|m|] == m;
      assert CutFrom(history, m[..n]);
      OfferCut(history, log, m[..n]);
      AnyDeliveryKeepsPrefix(history, Deliver(log, m, net[0]).log, msgs[1..], net[1..]);
    }
  }
}
