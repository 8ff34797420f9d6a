/** The consumer's polling loop: pages of every partition in turn, saved offsets, a limit.

    A fetch that is answered is answered with a page of a log, as BrokerRpc.HandleFetch does while no bytes of a failed
    append are in its reach. */
module Consumer {
  import opened Records
  import opened BrokerRpc

  /** What the cluster answers to a fetch at some moment: nothing, or from these logs, one a partition. */
  datatype Answer = Unreachable | Serving(logs: seq<seq<Record>>)

  /** The answer to the i-th fetch of a run. */
  type World = nat -> Answer

  /** n logs without holes that only grow. */
  ghost predicate Growing(world: World, n: nat) {
    && (forall i :: world(i).Serving? ==> |world(i).logs| == n && forall p :: 0 <= p < n ==> Dense(world(i).logs[p]))
    && (forall i, j, p :: i <= j && world(i).Serving? && world(j).Serving? && 0 <= p < n ==>
          world(i).logs[p] <= world(j).logs[p])
  }

  /** Every fetch answered, from logs that do not change. */
  ghost predicate Steady(world: World, logs: seq<seq<Record>>) {
    forall i :: world(i) == Serving(logs)
  }

  datatype Line = Line(partition: nat, rec: Record)

  datatype Status = Limit | Drained | Cut

  /** What was printed for partition p. */
  function Printed(out: seq<Line>, p: nat): seq<Record> {
    if out == [] then []
    else
      var last := out[|out| - 1];
      Printed(out[..|out| - 1], p) + if last.partition == p then [last.rec] else []
  }

  function Slice(log: seq<Record>, from: nat, to: nat): seq<Record> {
    if from <= to <= |log| then log[from..to] else []
  }

  lemma PrintedSnoc(out: seq<Line>, q: nat, r: Record, p: nat)
    ensures Printed(out + [Line(q, r)], p) == Printed(out, p) + if q == p then [r] else []
  {
    assert (out + [Line(q, r)])[..|out|] == out;
  }

  // ----- what the loop keeps -----

  /** Printed so far is exactly the stretch from start to offset of a log known to be a prefix of every later one. */
  ghost predicate Exact(out: seq<Line>, start: seq<nat>, offsets: seq<nat>, seen: seq<seq<Record>>, p: nat)
    requires p < |start| == |offsets| == |seen|
  {
    && start[p] <= offsets[p]
    && (offsets[p] == start[p] || offsets[p] <= |seen[p]|)
    && Printed(out, p) == Slice(seen[p], start[p], offsets[p])
  }

  ghost predicate AllExact(out: seq<Line>, start: seq<nat>, offsets: seq<nat>, seen: seq<seq<Record>>) {
    && |start| == |offsets| == |seen|
    && forall p :: 0 <= p < |start| ==> Exact(out, start, offsets, seen, p)
  }

  /** The log is that of partition p in the answer to some fetch before `clock`, or nothing was seen yet. */
  ghost predicate Served(world: World, clock: nat, p: nat, log: seq<Record>) {
    log == [] || exists j :: 0 <= j < clock && ServedAt(world, j, p, log)
  }

  ghost predicate ServedAt(world: World, j: nat, p: nat, log: seq<Record>) {
    world(j).Serving? && p < |world(j).logs| && world(j).logs[p] == log
  }

  ghost predicate AllServed(world: World, clock: nat, seen: seq<seq<Record>>) {
    forall p :: 0 <= p < |seen| ==> Served(world, clock, p, seen[p])
  }

  /** In a cluster that only grows, what was served once is a prefix of what is served later. */
  lemma ServedIsPrefix(world: World, n: nat, clock: nat, p: nat, log: seq<Record>, i: nat)
    requires Growing(world, n) && Served(world, clock, p, log) && clock <= i && world(i).Serving? && p < n
    ensures log <= world(i).logs[p]
  {
    if log != [] {
      var j :| 0 <= j < clock && ServedAt(world, j, p, log);
    }
  }

  /** Fetch `clock` of partition q is answered with this log, which is the one to account against from now on. */
  lemma SeeLog(world: World, n: nat, clock: nat, out: seq<Line>, start: seq<nat>, offsets: seq<nat>,
               seen: seq<seq<Record>>, q: nat)
    requires Growing(world, n) && |start| == n && q < n && world(clock).Serving?
    requires AllExact(out, start, offsets, seen) && AllServed(world, clock, seen)
    ensures var longer := seen[q := world(clock).logs[q]];
            AllExact(out, start, offsets, longer) && AllServed(world, clock + 1, longer)
  {
    var log := world(clock).logs[q];
    ServedIsPrefix(world, n, clock, q, seen[q], clock);
    SeeMore(out, start, offsets, seen, q, seen[q := log]);
    StillServed(world, clock, seen);
    assert ServedAt(world, clock, q, log);
  }

  lemma StillServed(world: World, clock: nat, seen: seq<seq<Record>>)
    requires AllServed(world, clock, seen)
    ensures AllServed(world, clock + 1, seen)
  {
  }

  lemma PrintOneKeeps(out: seq<Line>, start: seq<nat>, offsets: seq<nat>, seen: seq<seq<Record>>, q: nat, p: nat)
    requires p < |start| == |offsets| == |seen| && Exact(out, start, offsets, seen, p)
    requires q < |start| && offsets[q] < |seen[q]|
    ensures Exact(out + [Line(q, seen[q][offsets[q]])], start, offsets[q := offsets[q] + 1], seen, p)
  {
    PrintedSnoc(out, q, seen[q][offsets[q]], p);
    hide Printed;
    if p == q {
      SliceSnoc(seen[q], start[q], offsets[q]);
    }
  }

  lemma SliceSnoc(log: seq<Record>, from: nat, to: nat)
    requires from <= to < |log|
    ensures Slice(log, from, to + 1) == Slice(log, from, to) + [log[to]]
  {
  }

  lemma PrintOne(out: seq<Line>, start: seq<nat>, offsets: seq<nat>, seen: seq<seq<Record>>, q: nat,
                 longer: seq<Line>, next: seq<nat>)
    requires AllExact(out, start, offsets, seen) && q < |start| && offsets[q] < |seen[q]|
    requires longer == out + [Line(q, seen[q][offsets[q]])] && next == offsets[q := offsets[q] + 1]
    ensures AllExact(longer, start, next, seen)
  {
    forall p | 0 <= p < |start|
      ensures Exact(longer, start, next, seen, p)
    {
      assert Exact(out, start, offsets, seen, p);
      PrintOneKeeps(out, start, offsets, seen, q, p);
    }
  }

  lemma SeeMore(out: seq<Line>, start: seq<nat>, offsets: seq<nat>, seen: seq<seq<Record>>, q: nat,
                longer: seq<seq<Record>>)
    requires AllExact(out, start, offsets, seen) && |longer| == |seen|
    requires forall p :: 0 <= p < |seen| ==> seen[p] <= longer[p]
    ensures AllExact(out, start, offsets, longer)
  {
    forall p | 0 <= p < |start|
      ensures Exact(out, start, offsets, longer, p)
    {
      assert Exact(out, start, offsets, seen, p);
    }
  }

  /** Prints one page record by record; stops in the middle when the limit is reached. */
  method PrintPage(p: nat, page: Page, start: seq<nat>, offsets0: seq<nat>, out0: seq<Line>, max: int,
                   ghost seen: seq<seq<Record>>)
    returns (offsets: seq<nat>, out: seq<Line>, full: bool)
    requires AllExact(out0, start, offsets0, seen) && p < |start|
    requires Dense(seen[p]) && page == PageOf(seen[p], offsets0[p], 100)
    requires max > 0 ==> |out0| < max
    ensures AllExact(out, start, offsets, seen)
    ensures |out0| <= |out|
    ensures full <==> max > 0 && |out| == max
    ensures max > 0 ==> |out| <= max
    ensures forall l :: l in out ==> l in out0 || l.partition == p
    ensures out0 <= out && |offsets| == |offsets0| == |start| && offsets == offsets0[p := offsets0[p] + |out| - |out0|]
    ensures if full then |out0| < |out| <= |out0| + |page.recs| else |out| == |out0| + |page.recs|
  {
    offsets, out, full := offsets0, out0, false;
    ExactLengths(out, start, offsets, seen);
    hide AllExact;
    var k := 0;
    while k < |page.recs|
      invariant 0 <= k <= |page.recs|
      invariant AllExact(out, start, offsets, seen) && |offsets| == |start| && offsets == offsets0[p := offsets0[p] + k]
      invariant out0 <= out && |out| == |out0| + k
      invariant max > 0 ==> |out| < max
      invariant forall l :: l in out ==> l in out0 || l.partition == p
    {
      var r := page.recs[k];
      assert r == seen[p][offsets[p]] && r.offset == offsets[p];
      PrintOne(out, start, offsets, seen, p, out + [Line(p, r)], offsets[p := r.offset + 1]);
      out := out + [Line(p, r)];
      offsets := offsets[p := r.offset + 1];
      k := k + 1;
      if max > 0 && |out| >= max {
        return offsets, out, true;
      }
    }
    assert offsets[p := offsets[p]] == offsets;
    offsets := offsets[p := if page.next > offsets[p] then page.next else offsets[p]];
  }

  /** Where a fetch of partition p leaves its offset: at most 100 records on, not past the end of the log it is answered
      from, and where it was if it fails or finds nothing. */
  function Advance(answer: Answer, p: nat, offset: nat): nat {
    if answer.Unreachable? || p >= |answer.logs| || offset >= |answer.logs[p]| then offset
    else if |answer.logs[p]| - offset < 100 then |answer.logs[p]|
    else offset + 100
  }

  /** Fetch i was of partition p and moved its offset alone, all the way unless the limit stopped it. */
  ghost predicate Stepped(world: World, i: nat, p: nat, before: seq<nat>, after: seq<nat>, full: bool) {
    && p < |before| == |after|
    && (forall q :: 0 <= q < |before| && q != p ==> after[q] == before[q])
    && if full then before[p] < after[p] <= Advance(world(i), p, before[p]) else after[p] == Advance(world(i), p, before[p])
  }

  lemma PageAdvances(answer: Answer, p: nat, offset: nat)
    requires answer.Serving? && p < |answer.logs|
    ensures offset + |PageOf(answer.logs[p], offset, 100).recs| == Advance(answer, p, offset)
  {
  }

  /** One fetch of partition p and the printing of its page. */
  method FetchAndPrint(world: World, n: nat, p: nat, start: seq<nat>, offsets0: seq<nat>, out0: seq<Line>, max: int,
                       clock: nat, ghost seen0: seq<seq<Record>>)
    returns (offsets: seq<nat>, out: seq<Line>, full: bool, ghost seen: seq<seq<Record>>)
    requires Growing(world, n) && |start| == n && p < n
    requires AllExact(out0, start, offsets0, seen0) && AllServed(world, clock, seen0)
    requires max > 0 ==> |out0| < max
    requires forall l :: l in out0 ==> l.partition < n
    ensures |offsets| == n && AllExact(out, start, offsets, seen) && AllServed(world, clock + 1, seen)
    ensures out0 <= out && (max > 0 ==> |out| <= max) && (full <==> max > 0 && |out| == max)
    ensures forall l :: l in out ==> l.partition < n
    ensures Stepped(world, clock, p, offsets0, offsets, full)
    ensures |out| == |out0| <==> offsets == offsets0
  {
    offsets, out, full, seen := offsets0, out0, false, seen0;
    ExactLengths(out0, start, offsets0, seen0);
    StillServed(world, clock, seen0);
    hide AllExact, AllServed;
    var answer := world(clock);
    if answer.Serving? {
      SeeLog(world, n, clock, out, start, offsets, seen, p);
      seen := seen[p := answer.logs[p]];
      var page := PageOf(answer.logs[p], offsets[p], 100);
      PageAdvances(answer, p, offsets[p]);
      hide Growing, PageOf, Advance;
      offsets, out, full := PrintPage(p, page, start, offsets, out, max, seen);
      assert offsets[p] == offsets0[p] + |out| - |out0|;
    }
  }

  lemma ExactLengths(out: seq<Line>, start: seq<nat>, offsets: seq<nat>, seen: seq<seq<Record>>)
    requires AllExact(out, start, offsets, seen)
    ensures |start| == |offsets| == |seen|
  {
  }

  /** The round that started with fetch `first` has asked the partitions below `upTo`, one fetch each, and moved the
      offset of each as far as its answer allows. */
  ghost predicate Asked(world: World, first: nat, before: seq<nat>, after: seq<nat>, upTo: nat) {
    && upTo <= |before| == |after|
    && (forall p :: 0 <= p < upTo ==> after[p] == Advance(world(first + p), p, before[p]))
    && (forall p :: upTo <= p < |before| ==> after[p] == before[p])
  }

  /** The same for a round that the limit has stopped in the middle of the page of partition q. */
  ghost predicate StoppedAt(world: World, first: nat, before: seq<nat>, after: seq<nat>, q: nat) {
    && q < |before| == |after|
    && (forall p :: 0 <= p < q ==> after[p] == Advance(world(first + p), p, before[p]))
    && before[q] < after[q] <= Advance(world(first + q), q, before[q])
    && (forall p :: q < p < |before| ==> after[p] == before[p])
  }

  lemma AskNone(world: World, first: nat, offsets: seq<nat>)
    ensures Asked(world, first, offsets, offsets, 0)
  {
  }

  lemma AskOne(world: World, first: nat, before: seq<nat>, mid: seq<nat>, after: seq<nat>, p: nat, full: bool)
    requires Asked(world, first, before, mid, p) && Stepped(world, first + p, p, mid, after, full)
    ensures if full then StoppedAt(world, first, before, after, p) else Asked(world, first, before, after, p + 1)
    ensures (mid == before && after == mid ==> after == before) && (after == before ==> mid == before && after == mid)
  {
    hide Advance;
    assert mid[p] == before[p];
    assert after[p] >= mid[p] by {
      Onward(world(first + p), p, mid[p]);
    }
    forall q | 0 <= q < p
      ensures mid[q] == after[q]
    {
    }
  }

  lemma Onward(answer: Answer, p: nat, offset: nat)
    ensures Advance(answer, p, offset) >= offset
  {
  }

  /** One round over the partitions, one fetch each. A failed fetch is skipped; only the limit ends a round early. */
  method Round(world: World, n: nat, start: seq<nat>, offsets0: seq<nat>, out0: seq<Line>, max: int,
               clock0: nat, ghost seen0: seq<seq<Record>>)
    returns (offsets: seq<nat>, out: seq<Line>, full: bool, clock: nat, ghost seen: seq<seq<Record>>)
    requires Growing(world, n) && |start| == n
    requires AllExact(out0, start, offsets0, seen0) && AllServed(world, clock0, seen0)
    requires max > 0 ==> |out0| < max
    requires forall l :: l in out0 ==> l.partition < n
    ensures |offsets| == n && AllExact(out, start, offsets, seen) && AllServed(world, clock, seen)
    ensures out0 <= out && (max > 0 ==> |out| <= max) && (full <==> max > 0 && |out| == max)
    ensures forall l :: l in out ==> l.partition < n
    ensures !full ==> clock == clock0 + n && Asked(world, clock0, offsets0, offsets, n)
    ensures full ==> clock0 < clock <= clock0 + n && StoppedAt(world, clock0, offsets0, offsets, clock - clock0 - 1)
    ensures |out| == |out0| <==> offsets == offsets0
  {
    offsets, out, full, clock, seen := offsets0, out0, false, clock0, seen0;
    var p := 0;
    ExactLengths(out0, start, offsets0, seen0);
    AskNone(world, clock0, offsets0);
    hide AllExact, AllServed, Growing, Asked, StoppedAt, Stepped;
    while p < n
      invariant 0 <= p <= n && |offsets| == n && clock == clock0 + p && !full
      invariant AllExact(out, start, offsets, seen) && AllServed(world, clock, seen)
      invariant out0 <= out && (max > 0 ==> |out| < max)
      invariant forall l :: l in out ==> l.partition < n
      invariant Asked(world, clock0, offsets0, offsets, p)
      invariant |out| == |out0| <==> offsets == offsets0
    {
      ghost var mid := offsets;
      offsets, out, full, seen := FetchAndPrint(world, n, p, start, offsets, out, max, clock, seen);
      AskOne(world, clock0, offsets0, mid, offsets, p, full);
      clock := clock + 1;
      if full {
        return;
      }
      p := p + 1;
    }
  }

  /** Every answered fetch of the round that started with fetch `first` found its log read to the end. */
  ghost predicate AllRead(world: World, first: nat, offsets: seq<nat>) {
    forall p :: 0 <= p < |offsets| ==> ReadAt(world, first + p, p, offsets[p])
  }

  ghost predicate ReadAt(world: World, i: nat, p: nat, offset: nat) {
    world(i).Serving? && p < |world(i).logs| ==> |world(i).logs[p]| <= offset
  }

  /** A round that moved no offset found nothing to read. */
  lemma StillIsRead(world: World, first: nat, offsets: seq<nat>)
    requires Asked(world, first, offsets, offsets, |offsets|)
    ensures AllRead(world, first, offsets)
  {
  }

  // ----- how long it takes -----

  function Total(out: seq<Line>, n: nat): nat {
    if n == 0 then 0 else Total(out, n - 1) + |Printed(out, n - 1)|
  }

  function Unread(logs: seq<seq<Record>>, start: seq<nat>, n: nat): nat
    requires n <= |logs| && n <= |start|
  {
    if n == 0 then 0
    else Unread(logs, start, n - 1) + if start[n - 1] < |logs[n - 1]| then |logs[n - 1]| - start[n - 1] else 0
  }

  lemma {:induction false} TotalSnoc(out: seq<Line>, q: nat, r: Record, n: nat)
    ensures Total(out + [Line(q, r)], n) == Total(out, n) + if q < n then 1 else 0
  {
    if n > 0 {
      TotalSnoc(out, q, r, n - 1);
      PrintedSnoc(out, q, r, n - 1);
    }
  }

  lemma {:induction false} TotalIsLength(out: seq<Line>, n: nat)
    requires forall l :: l in out ==> l.partition < n
    ensures Total(out, n) == |out|
  {
    if out == [] {
      TotalOfNone(n);
    } else {
      var init, last := out[..|out| - 1], out[|out| - 1];
      TotalIsLength(init, n);
      TotalSnoc(init, last.partition, last.rec, n);
      assert out == init + [Line(last.partition, last.rec)];
    }
  }

  lemma {:induction false} TotalOfNone(n: nat)
    ensures Total([], n) == 0
  {
    if n > 0 {
      TotalOfNone(n - 1);
    }
  }

  lemma {:induction false} TotalIsBounded(out: seq<Line>, start: seq<nat>, offsets: seq<nat>, seen: seq<seq<Record>>,
                                          logs: seq<seq<Record>>, n: nat)
    requires AllExact(out, start, offsets, seen) && n <= |start| == |logs|
    requires forall p :: 0 <= p < |logs| ==> seen[p] <= logs[p]
    ensures Total(out, n) <= Unread(logs, start, n)
  {
    if n > 0 {
      TotalIsBounded(out, start, offsets, seen, logs, n - 1);
      assert Exact(out, start, offsets, seen, n - 1);
    }
  }

  // ----- the whole loop -----

  /** What was printed for partition p is exactly the stretch of its log from the starting to the saved offset, in the
      answer to some fetch before `clock`; if the offset has not moved, nothing was printed. */
  ghost predicate DeliveredFrom(world: World, p: nat, from: nat, to: nat, printed: seq<Record>, clock: nat) {
    if from == to then printed == []
    else from < to && exists j, log :: 0 <= j < clock && ServedAt(world, j, p, log) && to <= |log| && printed == log[from..to]
  }

  /** Nothing else was printed, and for every partition exactly that. */
  ghost predicate DeliveredExactly(world: World, n: nat, start: seq<nat>, offsets: seq<nat>, out: seq<Line>, clock: nat)
    requires |start| == |offsets| == n
  {
    && (forall l :: l in out ==> l.partition < n)
    && (forall p :: 0 <= p < n ==> DeliveredFrom(world, p, start[p], offsets[p], Printed(out, p), clock))
  }

  lemma ExactIsDelivered(world: World, n: nat, start: seq<nat>, offsets: seq<nat>, out: seq<Line>, clock: nat,
                         seen: seq<seq<Record>>)
    requires |start| == n && AllExact(out, start, offsets, seen) && AllServed(world, clock, seen)
    requires forall l :: l in out ==> l.partition < n
    ensures DeliveredExactly(world, n, start, offsets, out, clock)
  {
    forall p | 0 <= p < n
      ensures DeliveredFrom(world, p, start[p], offsets[p], Printed(out, p), clock)
    {
      assert Exact(out, start, offsets, seen, p) && Served(world, clock, p, seen[p]);
    }
  }

  /** What was delivered is found at the same place in any later answer. */
  lemma DeliveredIn(world: World, n: nat, p: nat, from: nat, to: nat, printed: seq<Record>, clock: nat, i: nat)
    requires Growing(world, n) && p < n && DeliveredFrom(world, p, from, to, printed, clock)
    requires clock <= i && world(i).Serving?
    ensures from <= to && (from < to ==> to <= |world(i).logs[p]| && printed == world(i).logs[p][from..to])
    ensures from == to ==> printed == []
  {
    if from < to {
      var j, log :| 0 <= j < clock && ServedAt(world, j, p, log) && to <= |log| && printed == log[from..to];
      ServedIsPrefix(world, n, clock, p, log, i);
    }
  }

  /** In a cluster that only grows, every later answer has that stretch too. */
  lemma DeliveredForLater(world: World, n: nat, start: seq<nat>, offsets: seq<nat>, out: seq<Line>, clock: nat,
                          i: nat, p: nat)
    requires Growing(world, n) && |start| == |offsets| == n && DeliveredExactly(world, n, start, offsets, out, clock)
    requires clock <= i && world(i).Serving? && p < n
    ensures start[p] <= offsets[p] && (offsets[p] == start[p] || offsets[p] <= |world(i).logs[p]|)
    ensures Printed(out, p) == Slice(world(i).logs[p], start[p], offsets[p])
  {
    DeliveredIn(world, n, p, start[p], offsets[p], Printed(out, p), clock, i);
  }

  lemma NothingSeen(world: World, start: seq<nat>)
    ensures AllExact([], start, start, seq(|start|, i => [])) && AllServed(world, 0, seq(|start|, i => []))
  {
  }

  /** With every fetch answered from the same logs, what is printed is at most what was unread, so the rounds that print
      something run out. */
  lemma SteadyIsShort(world: World, n: nat, start: seq<nat>, offsets: seq<nat>, out: seq<Line>, clock: nat,
                      seen: seq<seq<Record>>, logs: seq<seq<Record>>)
    requires Growing(world, n) && Steady(world, logs) && |logs| == n == |start|
    requires AllExact(out, start, offsets, seen) && AllServed(world, clock, seen)
    requires forall l :: l in out ==> l.partition < n
    ensures |out| <= Unread(logs, start, n)
  {
    assert world(clock) == Serving(logs);
    forall p | 0 <= p < n
      ensures seen[p] <= logs[p]
    {
      ServedIsPrefix(world, n, clock, p, seen[p], clock);
    }
    TotalIsLength(out, n);
    TotalIsBounded(out, start, offsets, seen, logs, n);
  }

  /** When all fetches are answered from the same logs, a last round that found nothing leaves nothing unread. */
  lemma SteadyIsDrained(world: World, logs: seq<seq<Record>>, first: nat, offsets: seq<nat>, p: nat)
    requires Steady(world, logs) && p < |logs| == |offsets| && AllRead(world, first, offsets)
    ensures |logs[p]| <= offsets[p]
  {
    assert ReadAt(world, first + p, p, offsets[p]);
    assert world(first + p) == Serving(logs);
  }

  /** The rounds of a run: the offsets and the number of fetches before the first, between them, and after the last. */
  datatype Rounds = Rounds(offsets: seq<seq<nat>>, clocks: seq<nat>)

  ghost predicate WholeRound(world: World, n: nat, h: Rounds, r: nat) {
    && r + 1 < |h.offsets| == |h.clocks| && |h.offsets[r]| == n
    && h.clocks[r + 1] == h.clocks[r] + n && Asked(world, h.clocks[r], h.offsets[r], h.offsets[r + 1], n)
  }

  /** h tells of rounds that asked all n partitions, from offsets `start` to `offsets` and fetch 0 to `clock`; without
      follow, each of them moved an offset. */
  ghost predicate Told(world: World, n: nat, h: Rounds, start: seq<nat>, offsets: seq<nat>, clock: nat, follow: bool) {
    && 0 < |h.offsets| == |h.clocks|
    && h.offsets[0] == start && h.clocks[0] == 0
    && h.offsets[|h.offsets| - 1] == offsets && h.clocks[|h.clocks| - 1] == clock
    && (forall r :: 0 <= r < |h.offsets| - 1 ==> WholeRound(world, n, h, r))
    && (!follow ==> forall r :: 0 <= r < |h.offsets| - 1 ==> h.offsets[r + 1] != h.offsets[r])
  }

  lemma TellMore(world: World, n: nat, h: Rounds, start: seq<nat>, mid: seq<nat>, middle: nat, offsets: seq<nat>, follow: bool)
    requires Told(world, n, h, start, mid, middle, follow) && |mid| == n
    requires Asked(world, middle, mid, offsets, n) && (!follow ==> offsets != mid)
    ensures Told(world, n, Rounds(h.offsets + [offsets], h.clocks + [middle + n]), start, offsets, middle + n, follow)
  {
    hide Asked;
    var h' := Rounds(h.offsets + [offsets], h.clocks + [middle + n]);
    forall r | 0 <= r < |h'.offsets| - 1
      ensures WholeRound(world, n, h', r)
      ensures !follow ==> h'.offsets[r + 1] != h'.offsets[r]
    {
      if r < |h.offsets| - 1 {
        assert WholeRound(world, n, h, r);
      }
    }
  }

  /** How a run ended from offsets mid and fetch `middle` on, after the whole rounds that h tells of. */
  ghost predicate Ended(world: World, n: nat, h: Rounds, mid: seq<nat>, middle: nat, offsets: seq<nat>, clock: nat,
                        follow: bool, rounds: nat, status: Status) {
    match status
    case Cut => |h.offsets| == rounds + 1 && offsets == mid && clock == middle
    case Drained => !follow && |h.offsets| <= rounds && offsets == mid && clock == middle + n && Asked(world, middle, mid, mid, n)
    case Limit => |h.offsets| <= rounds && middle < clock && StoppedAt(world, middle, mid, offsets, clock - middle - 1)
  }

  ghost predicate RanThrough(world: World, n: nat, h: Rounds, start: seq<nat>, offsets: seq<nat>, clock: nat,
                             follow: bool, rounds: nat, status: Status) {
    exists mid: seq<nat>, middle: nat ::
      Told(world, n, h, start, mid, middle, follow) && Ended(world, n, h, mid, middle, offsets, clock, follow, rounds, status)
  }

  lemma RunEnds(world: World, n: nat, h: Rounds, start: seq<nat>, mid: seq<nat>, middle: nat, offsets: seq<nat>, clock: nat,
                follow: bool, rounds: nat, status: Status)
    requires Told(world, n, h, start, mid, middle, follow)
    requires Ended(world, n, h, mid, middle, offsets, clock, follow, rounds, status)
    ensures RanThrough(world, n, h, start, offsets, clock, follow, rounds, status)
  {
  }

  lemma NothingTold(world: World, n: nat, start: seq<nat>, follow: bool)
    ensures Told(world, n, Rounds([start], [0]), start, start, 0, follow)
  {
  }

  lemma SteadyEnds(world: World, n: nat, start: seq<nat>, offsets: seq<nat>, out: seq<Line>, clock: nat, seen: seq<seq<Record>>)
    requires Growing(world, n) && |start| == n
    requires AllExact(out, start, offsets, seen) && AllServed(world, clock, seen)
    requires forall l :: l in out ==> l.partition < n
    ensures forall logs :: Steady(world, logs) && |logs| == n ==> |out| <= Unread(logs, start, n)
  {
    hide *;
    forall logs | Steady(world, logs) && |logs| == n
      ensures |out| <= Unread(logs, start, n)
    {
      SteadyIsShort(world, n, start, offsets, out, clock, seen, logs);
    }
  }

  /** The polling loop, from saved offsets to saved offsets. `rounds` cuts the otherwise endless follow mode. Every round
      asks every partition once, until the limit stops one; without follow, the first round that moves no offset is
      the last; with follow, nothing but the limit ends the loop. */
  method Consume(world: World, n: nat, start: seq<nat>, max: int, follow: bool, rounds: nat)
    returns (offsets: seq<nat>, out: seq<Line>, status: Status, clock: nat, ghost h: Rounds)
    requires Growing(world, n) && |start| == n
    ensures |offsets| == n && DeliveredExactly(world, n, start, offsets, out, clock)
    ensures max > 0 ==> |out| <= max
    ensures status == Limit <==> max > 0 && |out| == max
    ensures RanThrough(world, n, h, start, offsets, clock, follow, rounds, status)
    ensures status == Drained ==> !follow && n <= clock && AllRead(world, clock - n, offsets)
    ensures forall logs :: Steady(world, logs) && |logs| == n && !follow && rounds > Unread(logs, start, n) ==> status != Cut
  {
    offsets, out, status, clock := start, [], Cut, 0;
    h := Rounds([start], [0]);
    ghost var seen: seq<seq<Record>> := seq(n, i => []);
    var done := 0;
    NothingSeen(world, start);
    NothingTold(world, n, start, follow);
    hide *;
    while done < rounds
      invariant done <= rounds && |offsets| == n
      invariant AllExact(out, start, offsets, seen) && AllServed(world, clock, seen)
      invariant max > 0 ==> |out| < max
      invariant forall l :: l in out ==> l.partition < n
      invariant !follow ==> done <= |out|
      invariant Told(world, n, h, start, offsets, clock, follow) && |h.offsets| == done + 1
    {
      var before := |out|;
      ghost var mid, middle := offsets, clock;
      var full;
      offsets, out, full, clock, seen := Round(world, n, start, offsets, out, max, clock, seen);
      if full || (!follow && |out| == before) {
        status := if full then Limit else Drained;
        RoundEnds(world, n, h, start, mid, middle, offsets, clock, follow, rounds, full);
        ExactIsDelivered(world, n, start, offsets, out, clock, seen);
        return;
      }
      TellMore(world, n, h, start, mid, middle, offsets, follow);
      h := Rounds(h.offsets + [offsets], h.clocks + [clock]);
      done := done + 1;
    }
    CutEnds(world, n, h, start, offsets, clock, follow, rounds);
    ExactIsDelivered(world, n, start, offsets, out, clock, seen);
    SteadyEnds(world, n, start, offsets, out, clock, seen);
  }

  lemma CutEnds(world: World, n: nat, h: Rounds, start: seq<nat>, offsets: seq<nat>, clock: nat, follow: bool, rounds: nat)
    requires Told(world, n, h, start, offsets, clock, follow) && |h.offsets| == rounds + 1
    ensures RanThrough(world, n, h, start, offsets, clock, follow, rounds, Cut)
  {
    hide Told;
    RunEnds(world, n, h, start, offsets, clock, offsets, clock, follow, rounds, Cut);
  }

  lemma RoundEnds(world: World, n: nat, h: Rounds, start: seq<nat>, mid: seq<nat>, middle: nat, offsets: seq<nat>, clock: nat,
                  follow: bool, rounds: nat, full: bool)
    requires Told(world, n, h, start, mid, middle, follow) && |h.offsets| <= rounds && |offsets| == n
    requires full ==> middle < clock && StoppedAt(world, middle, mid, offsets, clock - middle - 1)
    requires !full ==> !follow && offsets == mid && clock == middle + n && Asked(world, middle, mid, offsets, n)
    ensures RanThrough(world, n, h, start, offsets, clock, follow, rounds, if full then Limit else Drained)
    ensures !full ==> n <= clock && AllRead(world, clock - n, offsets)
  {
    hide Told, AllRead;
    if !full {
      StillIsRead(world, middle, offsets);
    }
    hide Asked, StoppedAt;
    RunEnds(world, n, h, start, mid, middle, offsets, clock, follow, rounds, if full then Limit else Drained);
  }

  // ----- resuming -----

  /** The world from fetch `clock` on, as a run that starts then meets it. */
  function Later(world: World, clock: nat): World {
    (i: nat) => world(clock + i)
  }

  lemma {:induction false} PrintedConcat(a: seq<Line>, b: seq<Line>, p: nat)
    ensures Printed(a + b, p) == Printed(a, p) + Printed(b, p)
  {
    if b == [] {
      assert a + b == a;
    } else {
      var init, last := b[..|b| - 1], b[|b| - 1];
      PrintedConcat(a, init, p);
      assert b == init + [Line(last.partition, last.rec)] && a + b == (a + init) + [Line(last.partition, last.rec)];
      PrintedSnoc(init, last.partition, last.rec, p);
      PrintedSnoc(a + init, last.partition, last.rec, p);
    }
  }

  /** Two stretches, one after the other, of a log that has grown in between. */
  lemma DeliveredJoin(world: World, n: nat, p: nat, from: nat, mid: nat, to: nat, a: seq<Record>, b: seq<Record>,
                      clock1: nat, clock2: nat)
    requires Growing(world, n) && p < n
    requires DeliveredFrom(world, p, from, mid, a, clock1) && DeliveredFrom(Later(world, clock1), p, mid, to, b, clock2)
    ensures DeliveredFrom(world, p, from, to, a + b, clock1 + clock2)
  {
    hide Growing;
    if mid == to {
      assert a + b == a;
    } else {
      var j, log :| 0 <= j < clock2 && ServedAt(Later(world, clock1), j, p, log) && to <= |log| && b == log[mid..to];
      assert ServedAt(world, clock1 + j, p, log);
      DeliveredIn(world, n, p, from, mid, a, clock1, clock1 + j);
      assert log[from..mid] + log[mid..to] == log[from..to];
    }
  }

  /** Two runs, the second from the offsets the first one saved and over the cluster as it is by then, deliver what one
      run from the first one's start to the second one's end would have: nothing twice, nothing left out. */
  lemma ResumeIsSeamless(world: World, n: nat, start: seq<nat>, saved: seq<nat>, end: seq<nat>,
                         out1: seq<Line>, out2: seq<Line>, clock1: nat, clock2: nat)
    requires Growing(world, n) && |start| == |saved| == |end| == n
    requires DeliveredExactly(world, n, start, saved, out1, clock1)
    requires DeliveredExactly(Later(world, clock1), n, saved, end, out2, clock2)
    ensures DeliveredExactly(world, n, start, end, out1 + out2, clock1 + clock2)
  {
    hide Printed, DeliveredFrom, Growing;
    forall p | 0 <= p < n
      ensures DeliveredFrom(world, p, start[p], end[p], Printed(out1 + out2, p), clock1 + clock2)
    {
      PrintedConcat(out1, out2, p);
      DeliveredJoin(world, n, p, start[p], saved[p], end[p], Printed(out1, p), Printed(out2, p), clock1, clock2);
    }
  }

  /** A run of the consumer and another one that loads the offsets it saved; the cluster goes on in between. */
  method ConsumeTwice(world: World, n: nat, start: seq<nat>, max1: int, max2: int, follow: bool, rounds: nat)
    returns (offsets: seq<nat>, out1: seq<Line>, out2: seq<Line>, ghost clock: nat)
    requires Growing(world, n) && |start| == n
    ensures |offsets| == n && DeliveredExactly(world, n, start, offsets, out1 + out2, clock)
    ensures (max1 > 0 ==> |out1| <= max1) && (max2 > 0 ==> |out2| <= max2)
  {
    hide DeliveredExactly, RanThrough, AllRead, Unread, Steady;
    var saved, printed, status, clock1, h := Consume(world, n, start, max1, follow, rounds);
    var later := Later(world, clock1);
    assert Growing(later, n);
    out1 := printed;
    var clock2;
    offsets, out2, status, clock2, h := Consume(later, n, saved, max2, follow, rounds);
    ResumeIsSeamless(world, n, start, saved, offsets, out1, out2, clock1, clock2);
    clock := clock1 + clock2;
  }
}
