/** The sequential description of a write is one of the behaviours of the protocol: whatever the network and the disk
    do, a handled write moves the logs as some run of the state machine does. */
module Refinement {
  import opened Basics
  import opened Records
  import opened Replication
  import opened Protocol
  import Codec
  import Recovery
  import Storage
  import LogRuns

  /** Some run leads from one state to the other. */
  ghost predicate To(s: State, s': State) {
    exists steps :: Possible(s, steps) && Run(s, steps) == s'
  }

  lemma Stay(s: State)
    ensures To(s, s)
  {
    assert Possible(s, []) && Run(s, []) == s;
  }

  lemma {:induction false} OneLonger(s: State, steps: seq<Step>, x: Step)
    requires Possible(s, steps) && Enabled(Run(s, steps), x)
    ensures Possible(s, steps + [x]) && Run(s, steps + [x]) == Next(Run(s, steps), x)
    decreases |steps|
  {
    hide Enabled, Next;
    var more := steps + [x];
    if steps == [] {
      assert more[1..] == [];
      assert Possible(Next(s, x), []) && Run(Next(s, x), []) == Next(s, x);
    } else {
      OneLonger(Next(s, steps[0]), steps[1..], x);
      assert more[1..] == steps[1..] + [x];
    }
  }

  lemma Go(s: State, s': State, x: Step)
    requires To(s, s') && Enabled(s', x)
    ensures To(s, Next(s', x))
  {
    hide Enabled, Next;
    var steps :| Possible(s, steps) && Run(s, steps) == s';
    OneLonger(s, steps, x);
  }

  // ----- what a write may touch -----

  /** The log of the write's broker is lead, that of its follower, if it names one, is foll; no other log and
      nothing else of the metadata has changed. */
  ghost predicate Logs(s0: State, s: State, b: Id, f: Option<Id>, lead: seq<Record>, foll: seq<Record>) {
    && s.leader == s0.leader
    && LogOf(s, b) == lead && (f.Some? ==> LogOf(s, f.value) == foll)
    && forall d: Id :: d != b && f != Some(d) ==> LogOf(s, d) == LogOf(s0, d)
  }

  function FollowerLog(s: State, f: Option<Id>): seq<Record> {
    if f.Some? then LogOf(s, f.value) else []
  }

  /** The write is under way as call c of thread t, with at most its own message in flight. */
  ghost predicate During(s0: State, s: State, t: Tid, c: Call, lead: seq<Record>, foll: seq<Record>, rpcs: map<Rid, Rpc>) {
    && c.follower != Some(c.broker)
    && Logs(s0, s, c.broker, c.follower, lead, foll)
    && s.calls == s0.calls[t := c] && s.locks == s0.locks[c.broker := t]
    && s.rpcs == rpcs && s.commits == s0.commits
  }

  /** The write is over: nothing of it is left but the two logs, the commits and the messages that are named. */
  ghost predicate Settled(s0: State, s: State, c: Call, lead: seq<Record>, foll: seq<Record>, commits: seq<Commit>,
                          rpcs: map<Rid, Rpc>) {
    && Logs(s0, s, c.broker, c.follower, lead, foll)
    && s.calls == s0.calls && s.locks == s0.locks && s.rpcs == rpcs && s.commits == commits
  }

  /** Thread, message number and lock are free. */
  predicate Free(s: State, t: Tid, rid: Rid, b: Id) {
    t !in s.calls && rid !in s.rpcs && b !in s.locks
  }

  // ----- the phases of a write -----

  lemma Reserves(s0: State, t: Tid, rid: Rid, c: Call, ts: int) returns (s: State)
    requires Free(s0, t, rid, c.broker) && c.follower != Some(c.broker)
    requires c.payload != [] && (c.batch || |c.payload| == 1)
    requires c.phase == (if c.follower.None? then Writing(0) else Asking) && c.recs == Stamp(|LogOf(s0, c.broker)|, c.payload, ts)
    ensures To(s0, s) && During(s0, s, t, c, LogOf(s0, c.broker), FollowerLog(s0, c.follower), s0.rpcs)
  {
    hide Stamp, Possible, Run, To;
    Stay(s0);
    var start := Start(t, c.broker, c.follower, c.batch, c.payload);
    Go(s0, s0, start);
    var s1 := Next(s0, start);
    Go(s0, s1, Reserve(t, ts));
    s := Next(s1, Reserve(t, ts));
    assert s.calls[t] == c;
  }

  lemma Asks(s0: State, s: State, t: Tid, c: Call, foll: seq<Record>) returns (s': State)
    requires To(s0, s) && c.phase == Asking && c.recs != [] && c.follower.Some?
    requires During(s0, s, t, c, LogOf(s0, c.broker), foll, s0.rpcs)
    requires c.recs[0].offset == |LogOf(s0, c.broker)|
    ensures var lead := LogOf(s0, c.broker);
            var missing := if |foll| < |lead| then lead[|foll|..] else [];
            To(s0, s') && During(s0, s', t, c.(phase := Sending(Plan(c.batch, missing, c.recs))), lead, foll, s0.rpcs)
  {
    hide Plan, Possible, Run, To;
    var lead := LogOf(s0, c.broker);
    assert |foll| < |lead| ==> lead[|foll|..|lead|] == lead[|foll|..];
    Go(s0, s, Ask(t));
    s' := Next(s, Ask(t));
  }

  lemma GivesUp(s0: State, s: State, t: Tid, c: Call, lead: seq<Record>, foll: seq<Record>) returns (s': State)
    requires To(s0, s) && !c.phase.Waiting? && !c.phase.Writing? && t !in s0.calls && c.broker !in s0.locks
    requires During(s0, s, t, c, lead, foll, s0.rpcs)
    ensures To(s0, s') && Settled(s0, s', c, lead, foll, s0.commits, s0.rpcs)
  {
    hide Possible, Run, To;
    Go(s0, s, GiveUp(t));
    s' := Next(s, GiveUp(t));
  }

  lemma OfferSlice(log: seq<Record>, m: seq<Record>, j: nat, n: nat)
    requires j < n <= |m|
    ensures OfferAll(log, m[j..n]) == if Takes(log, m[j]) then OfferAll(Offer(log, m[j]), m[j + 1..n]) else log
    ensures TakesAll(log, m[j..n]) == (Takes(log, m[j]) && TakesAll(Offer(log, m[j]), m[j + 1..n]))
  {
    assert m[j..n][1..] == m[j + 1..n];
  }

  /** The follower handles records j to n of the message, as far as it takes them. */
  lemma {:induction false} Applies(s0: State, s: State, t: Tid, rid: Rid, c: Call, lead: seq<Record>, foll: seq<Record>,
                                   m: seq<Record>, j: nat, n: nat)
    returns (s': State, done: nat)
    requires c.follower.Some? && j <= n <= |m|
    requires To(s0, s) && During(s0, s, t, c, lead, foll, s0.rpcs[rid := Rpc(c.follower.value, m, j, Received(c.broker))])
    ensures To(s0, s')
    ensures During(s0, s', t, c, lead, OfferAll(foll, m[j..n]), s0.rpcs[rid := Rpc(c.follower.value, m, done, Received(c.broker))])
    ensures TakesAll(foll, m[j..n]) ==> done == n
    decreases n - j
  {
    hide Possible, Run, To, OfferAll, TakesAll;
    s', done := s, j;
    if j == n {
      assert m[j..n] == [];
      OfferNothing(foll);
    } else {
      OfferSlice(foll, m, j, n);
      if Takes(foll, m[j]) {
        var s1 := AppliesOne(s0, s, t, rid, c, lead, foll, m, j);
        s', done := Applies(s0, s1, t, rid, c, lead, Offer(foll, m[j]), m, j + 1, n);
      }
    }
  }

  lemma AppliesOne(s0: State, s: State, t: Tid, rid: Rid, c: Call, lead: seq<Record>, foll: seq<Record>,
                   m: seq<Record>, j: nat)
    returns (s': State)
    requires c.follower.Some? && j < |m| && Takes(foll, m[j])
    requires To(s0, s) && During(s0, s, t, c, lead, foll, s0.rpcs[rid := Rpc(c.follower.value, m, j, Received(c.broker))])
    ensures To(s0, s')
    ensures During(s0, s', t, c, lead, Offer(foll, m[j]), s0.rpcs[rid := Rpc(c.follower.value, m, j + 1, Received(c.broker))])
  {
    hide Possible, Run, To;
    Go(s0, s, Apply(rid));
    s' := Next(s, Apply(rid));
    ApplyMoves(s, rid);
    LogsAfter(s, Apply(rid));
    hide Next, Enabled, LogOf;
    assert s'.rpcs == s0.rpcs[rid := Rpc(c.follower.value, m, j + 1, Received(c.broker))];
  }

  lemma ApplyMoves(s: State, rid: Rid)
    requires Enabled(s, Apply(rid))
    ensures Next(s, Apply(rid)) == s.(logs := Next(s, Apply(rid)).logs, origins := Next(s, Apply(rid)).origins,
                                      rpcs := s.rpcs[rid := s.rpcs[rid].(done := s.rpcs[rid].done + 1)])
  {
    hide LogOf, Accept;
  }

  /** All logs after a step. */
  lemma LogsAfter(s: State, step: Step)
    requires Enabled(s, step)
    ensures var added, s' := Added(s, step), Next(s, step);
            forall d: Id ::
              LogOf(s', d) == if added.Some? && added.value.broker == d then LogOf(s, d) + [added.value.rec] else LogOf(s, d)
  {
    hide Next, Enabled, Added, LogOf;
    forall d: Id
      ensures LogOf(Next(s, step), d) ==
              if Added(s, step).Some? && Added(s, step).value.broker == d
              then LogOf(s, d) + [Added(s, step).value.rec] else LogOf(s, d)
    {
      OnlyAdded(s, step, d);
    }
  }

  /** One message meets its outcome: the call goes on to the next one or to its local appends, or gives up. */
  lemma Delivers(s0: State, s: State, t: Tid, rid: Rid, c: Call, lead: seq<Record>, foll: seq<Record>, o: Outcome)
    returns (s': State)
    requires Free(s0, t, rid, c.broker) && c.phase.Sending? && c.phase.todo != [] && c.follower.Some?
    requires To(s0, s) && During(s0, s, t, c, lead, foll, s0.rpcs)
    ensures var todo, d := c.phase.todo, Deliver(foll, c.phase.todo[0], o);
            && To(s0, s')
            && (d.ok ==> During(s0, s', t, c.(phase := if |todo| == 1 then Writing(0) else Sending(todo[1..])),
                                lead, d.log, s0.rpcs))
            && (!d.ok ==> Settled(s0, s', c, lead, d.log, s0.commits, s0.rpcs))
  {
    hide Possible, Run, To, OfferAll, TakesAll;
    var m := c.phase.todo[0];
    var seen := Seen(foll, m, o);
    SeenIsDelivered(foll, m, o);
    var n := match seen case Acked => |m| case Broken(k) => if k < |m| then k else |m|;
    assert m[0..n] == m[..n] && m[..|m|] == m;
    Go(s0, s, Send(t, rid));
    var s1 := Next(s, Send(t, rid));
    var s2, done := Applies(s0, s1, t, rid, c, lead, foll, m, 0, n);
    if seen.Acked? && TakesAll(foll, m) {
      s' := IsAcked(s0, s2, t, rid, c, lead, OfferAll(foll, m));
    } else {
      s' := IsDropped(s0, s2, t, rid, c, lead, OfferAll(foll, m[..n]), m, done);
    }
  }

  lemma IsAcked(s0: State, s: State, t: Tid, rid: Rid, c: Call, lead: seq<Record>, foll: seq<Record>) returns (s': State)
    requires Free(s0, t, rid, c.broker) && c.phase.Sending? && c.phase.todo != [] && c.follower.Some?
    requires var m := c.phase.todo[0];
             To(s0, s) && During(s0, s, t, c, lead, foll, s0.rpcs[rid := Rpc(c.follower.value, m, |m|, Received(c.broker))])
    ensures var todo := c.phase.todo;
            && To(s0, s')
            && During(s0, s', t, c.(phase := if |todo| == 1 then Writing(0) else Sending(todo[1..])), lead, foll, s0.rpcs)
  {
    hide Possible, Run, To;
    Go(s0, s, Ack(t, rid));
    s' := Next(s, Ack(t, rid));
    assert s'.rpcs == s0.rpcs;
  }

  lemma IsDropped(s0: State, s: State, t: Tid, rid: Rid, c: Call, lead: seq<Record>, foll: seq<Record>,
                  m: seq<Record>, done: nat)
    returns (s': State)
    requires Free(s0, t, rid, c.broker) && c.phase.Sending? && c.follower.Some?
    requires To(s0, s) && During(s0, s, t, c, lead, foll, s0.rpcs[rid := Rpc(c.follower.value, m, done, Received(c.broker))])
    ensures To(s0, s') && Settled(s0, s', c, lead, foll, s0.commits, s0.rpcs)
  {
    hide Possible, Run, To;
    var s1 := Dropped(s0, s, rid);
    assert s1.rpcs == s0.rpcs;
    s' := GivesUp(s0, s1, t, c, lead, foll);
  }

  /** All messages in order, until one of them breaks. */
  lemma {:induction false} Sends(s0: State, s: State, t: Tid, rid: Rid, c: Call, lead: seq<Record>, foll: seq<Record>,
                                 net: seq<Outcome>)
    returns (s': State)
    requires Free(s0, t, rid, c.broker) && c.phase.Sending? && c.phase.todo != [] && c.follower.Some?
    requires To(s0, s) && During(s0, s, t, c, lead, foll, s0.rpcs)
    ensures var d := SendAll(foll, c.phase.todo, net);
            && To(s0, s')
            && (d.ok ==> During(s0, s', t, c.(phase := Writing(0)), lead, d.log, s0.rpcs))
            && (!d.ok ==> Settled(s0, s', c, lead, d.log, s0.commits, s0.rpcs))
    decreases |c.phase.todo|
  {
    hide Possible, Run, To, During, Settled, Deliver;
    var todo := c.phase.todo;
    if net == [] {
      s' := GivesUp(s0, s, t, c, lead, foll);
    } else {
      s' := Delivers(s0, s, t, rid, c, lead, foll, net[0]);
      var d := Deliver(foll, todo[0], net[0]);
      if d.ok && |todo| > 1 {
        var rest := c.(phase := Sending(todo[1..]));
        s' := Sends(s0, s', t, rid, rest, lead, d.log, net[1..]);
        assert rest.(phase := Writing(0)) == c.(phase := Writing(0));
        SettledAlike(s0, s', rest, c, lead, SendAll(d.log, todo[1..], net[1..]).log, s0.commits, s0.rpcs);
      }
    }
  }

  lemma SettledAlike(s0: State, s: State, c: Call, c': Call, lead: seq<Record>, foll: seq<Record>, commits: seq<Commit>,
                     rpcs: map<Rid, Rpc>)
    requires c'.broker == c.broker && c'.follower == c.follower
    ensures Settled(s0, s, c, lead, foll, commits, rpcs) ==> Settled(s0, s, c', lead, foll, commits, rpcs)
  {
  }

  /** The local appends, until the disk fails. What the failed append left behind stays a message if it is kept. */
  lemma {:induction false} Stores(s0: State, s: State, t: Tid, rid: Rid, c: Call, lead: seq<Record>, foll: seq<Record>,
                                  written: nat, kept: bool)
    returns (s': State)
    requires Free(s0, t, rid, c.broker) && c.phase.Writing? && c.phase.i <= |c.recs| && c.phase.i <= written
    requires Contiguous(|lead|, c.recs)
    requires To(s0, s) && During(s0, s, t, c, lead + c.recs[..c.phase.i], foll, s0.rpcs)
    ensures To(s0, s')
    ensures if written < |c.recs|
            then Settled(s0, s', c, lead + c.recs[..written], foll, s0.commits,
                         if kept then s0.rpcs[rid := LeftBy(c.broker, c.follower, c.recs[written])] else s0.rpcs)
            else Settled(s0, s', c, lead + c.recs, foll, s0.commits + [Commit(c.broker, c.follower, c.recs)], s0.rpcs)
    decreases |c.recs| - c.phase.i
  {
    hide Possible, Run, To, Contiguous;
    var i := c.phase.i;
    if i == |c.recs| {
      assert c.recs[..i] == c.recs;
      Go(s0, s, Finish(t));
      s' := Next(s, Finish(t));
    } else if i == written {
      s' := DiskBreaks(s0, s, t, rid, c, lead + c.recs[..i], foll, kept);
    } else {
      hide During;
      var c' := c.(phase := Writing(i + 1));
      var s1 := StoresOne(s0, s, t, rid, c, lead, foll);
      s' := Stores(s0, s1, t, rid, c', lead, foll, written, kept);
    }
  }

  /** The message that stands for a record left behind by a failed local append. */
  function LeftBy(b: Id, f: Option<Id>, r: Record): Rpc {
    Rpc(b, [r], 0, Local(f))
  }

  lemma StoresOne(s0: State, s: State, t: Tid, rid: Rid, c: Call, lead: seq<Record>, foll: seq<Record>) returns (s': State)
    requires c.phase.Writing? && c.phase.i < |c.recs| && Contiguous(|lead|, c.recs)
    requires To(s0, s) && During(s0, s, t, c, lead + c.recs[..c.phase.i], foll, s0.rpcs)
    ensures To(s0, s')
    ensures During(s0, s', t, c.(phase := Writing(c.phase.i + 1)), lead + c.recs[..c.phase.i + 1], foll, s0.rpcs)
  {
    hide Possible, Run, To;
    var i := c.phase.i;
    Go(s0, s, Store(t));
    s' := Next(s, Store(t));
    Associate(lead, c.recs[..i], [c.recs[i]]);
    assert c.recs[..i + 1] == c.recs[..i] + [c.recs[i]];
  }

  lemma DiskBreaks(s0: State, s: State, t: Tid, rid: Rid, c: Call, lead: seq<Record>, foll: seq<Record>, kept: bool)
    returns (s': State)
    requires Free(s0, t, rid, c.broker) && c.phase.Writing? && c.phase.i < |c.recs|
    requires To(s0, s) && During(s0, s, t, c, lead, foll, s0.rpcs)
    ensures To(s0, s')
    ensures Settled(s0, s', c, lead, foll, s0.commits,
                    if kept then s0.rpcs[rid := LeftBy(c.broker, c.follower, c.recs[c.phase.i])] else s0.rpcs)
  {
    hide Possible, Run, To;
    Go(s0, s, DiskFail(t, rid));
    s' := Next(s, DiskFail(t, rid));
    assert s'.calls == s0.calls && s'.locks == s0.locks;
    LogsAfter(s, DiskFail(t, rid));
    if !kept {
      s' := Dropped(s0, s', rid);
      assert s'.rpcs == s0.rpcs;
    }
  }

  /** What a write does to the two logs, with or without a follower. */
  function WriteTo(s: State, b: Id, f: Option<Id>, batch: bool, payload: seq<Payload>, ts: int,
                   net: seq<Outcome>, written: nat): Write {
    var lead, foll := LogOf(s, b), FollowerLog(s, f);
    if f.Some? then WriteThrough(batch, lead, foll, payload, ts, net, written)
    else WriteLocally(lead, foll, Stamp(|lead|, payload, ts), written)
  }

  /** The write got as far as its local appends and the disk failed at one of them. */
  predicate FailsLocally(s: State, b: Id, f: Option<Id>, batch: bool, payload: seq<Payload>, ts: int,
                         net: seq<Outcome>, written: nat) {
    var lead := LogOf(s, b);
    && written < |payload|
    && (f.Some? ==> Replicate(batch, lead, LogOf(s, f.value), Stamp(|lead|, payload, ts), net).ok)
  }

  /** Every write, with a follower or without, under every outcome of its calls and every failure of its broker's
      disk, is a run of the protocol: it moves the logs the same way, commits in the same cases and touches
      nothing else, except that a record which a failed local append left behind may be kept for a restart to find. */
  lemma WriteIsARun(s: State, t: Tid, rid: Rid, b: Id, f: Option<Id>, batch: bool, payload: seq<Payload>, ts: int,
                    net: seq<Outcome>, written: nat, kept: bool)
    returns (s': State)
    requires Free(s, t, rid, b) && f != Some(b) && payload != [] && (batch || |payload| == 1)
    ensures To(s, s')
    ensures var w := WriteTo(s, b, f, batch, payload, ts, net, written);
            var recs := Stamp(|LogOf(s, b)|, payload, ts);
            && Logs(s, s', b, f, w.lead, w.foll)
            && s'.calls == s.calls && s'.locks == s.locks
            && s'.rpcs == (if kept && FailsLocally(s, b, f, batch, payload, ts, net, written)
                           then s.rpcs[rid := LeftBy(b, f, recs[written])] else s.rpcs)
            && s'.commits == s.commits + if w.ok then [Commit(b, f, recs)] else []
  {
    hide Possible, Run, To, Stamp, SendAll, Plan, Logs;
    var lead, foll := LogOf(s, b), FollowerLog(s, f);
    var recs := Stamp(|lead|, payload, ts);
    var c := Call(b, f, batch, payload, recs, if f.None? then Writing(0) else Asking);
    s' := Reserves(s, t, rid, c, ts);
    assert lead + recs[..0] == lead;
    if f.None? {
      s' := Stores(s, s', t, rid, c, lead, foll, written, kept);
    } else if net == [] || net[0] != Acked {
      s' := GivesUp(s, s', t, c, lead, foll);
    } else {
      s' := Asks(s, s', t, c, foll);
      var missing := if |foll| < |lead| then lead[|foll|..] else [];
      var sending := c.(phase := Sending(Plan(batch, missing, recs)));
      s' := Sends(s, s', t, rid, sending, lead, foll, net[1..]);
      var d := SendAll(foll, Plan(batch, missing, recs), net[1..]);
      if d.ok {
        s' := Stores(s, s', t, rid, sending.(phase := Writing(0)), lead, d.log, written, kept);
      }
    }
  }

  // ----- restarts -----

  /** A broker crashes and comes back with a part of the next frame behind its log: what its log is then, the protocol
      reaches by applying the message that stands for that record, or by dropping it. */
  lemma RestartIsARun(crc: Codec.Checksum, s0: State, s: State, rid: Rid, disk: Storage.Disk) returns (s': State)
    requires To(s0, s) && rid in s.rpcs && s.rpcs[rid].done < |s.rpcs[rid].recs|
    requires var m := s.rpcs[rid];
             m.recs[m.done].offset == |LogOf(s, m.dest)| && Fits(m.recs[m.done])
    ensures To(s0, s')
    ensures var b, r := s.rpcs[rid].dest, s.rpcs[rid].recs[s.rpcs[rid].done];
            var left := LogRuns.Contents(LogOf(s, b), Storage.Written(Codec.Encode(crc, r), disk));
            && LogOf(s', b) == LogRuns.After(crc, left, LogRuns.Reopen).recs
            && (forall d: Id :: d != b ==> LogOf(s', d) == LogOf(s, d))
            && (forall t :: t in s'.calls <==> t in s.calls && s.calls[t].broker != b)
            && s'.rpcs == s.rpcs - {rid} && s'.leader == s.leader && s'.commits == s.commits
  {
    var m := s.rpcs[rid];
    var r := m.recs[m.done];
    var whole := Storage.Written(Codec.Encode(crc, r), disk) == Codec.Encode(crc, r);
    RestartScans(crc, LogOf(s, m.dest), r, disk);
    s' := CrashAndFind(s0, s, rid, whole);
  }

  lemma CrashAndFind(s0: State, s: State, rid: Rid, whole: bool) returns (s': State)
    requires To(s0, s) && rid in s.rpcs && s.rpcs[rid].done < |s.rpcs[rid].recs|
    requires s.rpcs[rid].recs[s.rpcs[rid].done].offset == |LogOf(s, s.rpcs[rid].dest)|
    ensures To(s0, s')
    ensures var b, r := s.rpcs[rid].dest, s.rpcs[rid].recs[s.rpcs[rid].done];
            && LogOf(s', b) == (if whole then LogOf(s, b) + [r] else LogOf(s, b))
            && (forall d: Id :: d != b ==> LogOf(s', d) == LogOf(s, d))
            && (forall t :: t in s'.calls <==> t in s.calls && s.calls[t].broker != b)
            && s'.rpcs == s.rpcs - {rid} && s'.leader == s.leader && s'.commits == s.commits
  {
    hide Possible, Run, To;
    var m := s.rpcs[rid];
    Go(s0, s, Crash(m.dest));
    s' := Next(s, Crash(m.dest));
    assert s'.rpcs == s.rpcs && s'.logs == s.logs;
    if whole {
      Go(s0, s', Apply(rid));
      s' := Next(s', Apply(rid));
    }
    s' := Dropped(s0, s', rid);
  }

  lemma Dropped(s0: State, s: State, rid: Rid) returns (s': State)
    requires To(s0, s) && rid in s.rpcs
    ensures To(s0, s') && s' == s.(rpcs := s.rpcs - {rid})
  {
    hide Possible, Run, To;
    Go(s0, s, Drop(rid));
    s' := Next(s, Drop(rid));
  }

  lemma RestartScans(crc: Codec.Checksum, log: seq<Record>, r: Record, disk: Storage.Disk)
    requires Fits(r)
    ensures var w := Storage.Written(Codec.Encode(crc, r), disk);
            LogRuns.After(crc, LogRuns.Contents(log, w), LogRuns.Reopen).recs
            == if w == Codec.Encode(crc, r) then log + [r] else log
  {
    hide Codec.Encode, Recovery.Scan;
    var w := Storage.Written(Codec.Encode(crc, r), disk);
    assert w == Codec.Encode(crc, r)[..|w|];
    Recovery.ScanOfTorn(crc, r, |w|);
    assert log + [] == log;
  }

  /** A write whose local append fails and a restart of its broker, on real frames and in the protocol: the broker's log
      has the acked records the disk stored, and the next one exactly when its whole frame was written. */
  lemma FailedWriteThenRestart(crc: Codec.Checksum, s: State, t: Tid, rid: Rid, b: Id, f: Option<Id>, batch: bool,
                               payload: seq<Payload>, ts: int, net: seq<Outcome>, written: nat, disk: Storage.Disk)
    returns (s': State)
    requires Free(s, t, rid, b) && f != Some(b) && payload != [] && (batch || |payload| == 1)
    requires FailsLocally(s, b, f, batch, payload, ts, net, written) && disk != Storage.Healthy
    requires Fits(Stamp(|LogOf(s, b)|, payload, ts)[written])
    ensures To(s, s')
    ensures var w := WriteTo(s, b, f, batch, payload, ts, net, written);
            var r := Stamp(|LogOf(s, b)|, payload, ts)[written];
            var failed := LogRuns.Put(crc, LogRuns.Contents(w.lead, []), r, disk);
            && LogOf(s', b) == LogRuns.After(crc, failed, LogRuns.Reopen).recs
            && (f.Some? ==> LogOf(s', f.value) == w.foll)
            && s'.commits == s.commits
  {
    hide Possible, Run, To, Stamp, Codec.Encode, Recovery.Scan, Replicate;
    var recs := Stamp(|LogOf(s, b)|, payload, ts);
    var s1 := WriteIsARun(s, t, rid, b, f, batch, payload, ts, net, written, true);
    var w := WriteTo(s, b, f, batch, payload, ts, net, written);
    assert w.lead == LogOf(s, b) + recs[..written] && !w.ok;
    s' := RestartIsARun(crc, s, s1, rid, disk);
    var frame := Codec.Encode(crc, recs[written]);
    assert LogRuns.Put(crc, LogRuns.Contents(w.lead, []), recs[written], disk)
        == LogRuns.Contents(w.lead, Storage.Written(frame, disk));
  }
}
