/** Concurrent writes on one broker: its produce lock orders them, as long as no message appends to its log while
    the lock is held. Before, between and after its writes the broker may be a follower, crash, and find at a
    restart what a failed append left. */
module SoleLeader {
  import opened Basics
  import opened Records
  import opened Replication
  import opened Protocol
  import opened Coverage

  /** The step is a message that appends to b's log; one whose record is already present does not. */
  predicate Intrudes(s: State, step: Step, b: Id)
    requires Enabled(s, step)
  {
    step.Apply? && s.rpcs[step.rid].dest == b && s.rpcs[step.rid].recs[s.rpcs[step.rid].done].offset == |LogOf(s, b)|
  }

  /** No message appends to b's log while a write holds b's lock. */
  predicate Spares(s: State, step: Step, b: Id)
    requires Enabled(s, step)
  {
    Intrudes(s, step, b) ==> b !in s.locks
  }

  /** Only writes handled at b change b's log, and the step does not interrupt one: no message appends there, no
      disk fails there, b does not crash. */
  predicate Gentle(s: State, step: Step, b: Id)
    requires Enabled(s, step)
  {
    && !Intrudes(s, step, b)
    && step != Crash(b)
    && (step.DiskFail? ==> s.calls[step.t].broker != b)
  }

  predicate SoleRun(s: State, steps: seq<Step>, b: Id, gentle: bool)
    requires Possible(s, steps)
    decreases |steps|
  {
    steps == []
    || (Spares(s, steps[0], b) && (gentle ==> Gentle(s, steps[0], b)) && SoleRun(Next(s, steps[0]), steps[1..], b, gentle))
  }

  // ----- what such runs keep -----

  /** How many of its records a call has appended locally. */
  function Done(c: Call): nat {
    if c.phase.Writing? then c.phase.i else 0
  }

  /** The offset a call reserved, plus what it has appended since, is the log's next offset. */
  ghost predicate HoldsNext(s: State, c: Call) {
    && c.recs != []
    && c.recs[0].offset + Done(c) == |LogOf(s, c.broker)|
    && Done(c) <= |c.recs|
    && LogOf(s, c.broker)[c.recs[0].offset..] == c.recs[..Done(c)]
  }

  ghost predicate ReservationsHold(s: State, b: Id) {
    forall t :: t in s.calls && s.calls[t].broker == b && !s.calls[t].phase.Waiting? ==> HoldsNext(s, s.calls[t])
  }

  /** What the concurrent-producer results start from and every step that spares b keeps. */
  ghost predicate Holding(s: State, b: Id) {
    Inv(s) && ReservationsHold(s, b)
  }

  /** The range of a committed write holds exactly its records. */
  ghost predicate InPlace(s: State, c: Commit) {
    c.recs != [] && End(c.recs) <= |LogOf(s, c.broker)| && LogOf(s, c.broker)[c.recs[0].offset..End(c.recs)] == c.recs
  }

  /** Commits of b from number k on are in place. */
  ghost predicate CommitsInPlace(s: State, b: Id, k: nat) {
    forall i :: k <= i < |s.commits| && s.commits[i].broker == b ==> InPlace(s, s.commits[i])
  }

  /** A commit of b, from number k on, lies behind all earlier commits of b. */
  ghost predicate Ordered(s: State, b: Id, k: nat) {
    forall i, j :: 0 <= i < j < |s.commits| && k <= j && s.commits[i].broker == b && s.commits[j].broker == b ==>
      s.commits[j].recs != [] && End(s.commits[i].recs) <= s.commits[j].recs[0].offset
  }

  /** A call past reservation lies behind every commit of its broker. */
  ghost predicate Behind(s: State, b: Id) {
    forall t, i :: t in s.calls && s.calls[t].broker == b && !s.calls[t].phase.Waiting?
                   && 0 <= i < |s.commits| && s.commits[i].broker == b ==>
      s.calls[t].recs != [] && End(s.commits[i].recs) <= s.calls[t].recs[0].offset
  }

  ghost predicate SoleInv(s: State, b: Id, k: nat) {
    Holding(s, b) && CommitsInPlace(s, b, k) && Ordered(s, b, k) && Behind(s, b)
  }

  /** b's log changes only by the local append of the call that holds b's lock, or by a message. */
  lemma LogView(s: State, step: Step, b: Id)
    requires Enabled(s, step)
    ensures if step.Store? && s.calls[step.t].broker == b && s.calls[step.t].recs[s.calls[step.t].phase.i].offset == |LogOf(s, b)|
            then LogOf(Next(s, step), b) == LogOf(s, b) + [s.calls[step.t].recs[s.calls[step.t].phase.i]]
            else LogOf(Next(s, step), b) == LogOf(s, b) || Intrudes(s, step, b)
  {
    OnlyAdded(s, step, b);
    hide Next, LogOf, OriginsOf;
  }

  /** How a call past reservation at b got there. */
  lemma CallView(s: State, step: Step, t: Tid)
    requires Enabled(s, step)
    requires t in Next(s, step).calls && !Next(s, step).calls[t].phase.Waiting?
    ensures var c := Next(s, step).calls[t];
            || (t in s.calls && !s.calls[t].phase.Waiting? && !(step.Store? && step.t == t)
                && c.broker == s.calls[t].broker && c.recs == s.calls[t].recs && Done(c) == Done(s.calls[t]))
            || (step.Store? && step.t == t && c == s.calls[t].(phase := Writing(s.calls[t].phase.i + 1)))
            || (step.Reserve? && step.t == t && c.broker == s.calls[t].broker && c.recs == NewRecs(s, t, step.ts)
                && c.payload == s.calls[t].payload && Done(c) == 0)
  {
    hide Stamp, Plan, Gap, LogOf, Accept;
  }

  lemma StoreHolds(s: State, b: Id, t: Tid)
    requires Holding(s, b) && Enabled(s, Store(t)) && s.calls[t].broker == b
    ensures HoldsNext(Next(s, Store(t)), Next(s, Store(t)).calls[t])
    ensures s.calls[t].recs[s.calls[t].phase.i].offset == |LogOf(s, b)|
  {
    var c := s.calls[t];
    assert c.phase.Writing? && c.phase.i < |c.recs|;
    hide Next, LogOf, Holding, Enabled, HoldsNext;
    StoreAdds(s, b, t);
    HoldsOneMore(s, Next(s, Store(t)), c);
  }

  lemma HoldsOneMore(s: State, s': State, c: Call)
    requires HoldsNext(s, c) && c.phase.Writing? && c.phase.i < |c.recs|
    requires LogOf(s', c.broker) == LogOf(s, c.broker) + [c.recs[c.phase.i]]
    ensures HoldsNext(s', c.(phase := Writing(c.phase.i + 1)))
  {
    hide LogOf;
    StretchOneMore(LogOf(s, c.broker), c.recs, c.recs[0].offset, c.phase.i);
  }

  lemma StretchOneMore(log: seq<Record>, recs: seq<Record>, base: nat, i: nat)
    requires i < |recs| && base <= |log| && log[base..] == recs[..i]
    ensures (log + [recs[i]])[base..] == recs[..i + 1]
  {
  }

  /** The call that holds the lock appends its next record, whose offset is the log's next. */
  lemma StoreAdds(s: State, b: Id, t: Tid)
    requires Holding(s, b) && Enabled(s, Store(t)) && s.calls[t].broker == b
    ensures var c, s' := s.calls[t], Next(s, Store(t));
            && HoldsNext(s, c) && c.recs[c.phase.i].offset == |LogOf(s, b)|
            && LogOf(s', b) == LogOf(s, b) + [c.recs[c.phase.i]]
            && s'.calls[t] == c.(phase := Writing(c.phase.i + 1))
  {
    hide Next, LogOf, Holding;
    HolderFacts(s, b, t);
    LogView(s, Store(t), b);
    StoreMoves(s, t);
  }

  /** What holds of the call that holds b's lock. */
  lemma HolderFacts(s: State, b: Id, t: Tid)
    requires Holding(s, b) && t in s.calls && s.calls[t].broker == b && !s.calls[t].phase.Waiting?
    ensures HoldsNext(s, s.calls[t]) && CallOk(s, t, s.calls[t])
  {
    hide LogOf, CallOk, HoldsNext;
  }

  lemma StoreMoves(s: State, t: Tid)
    requires Enabled(s, Store(t))
    ensures var c, s' := s.calls[t], Next(s, Store(t));
            s'.calls == s.calls[t := c.(phase := Writing(c.phase.i + 1))] && s'.locks == s.locks && s'.commits == s.commits
  {
    hide LogOf, OriginsOf;
  }

  lemma ReserveHolds(s: State, b: Id, t: Tid, ts: int)
    requires CallsOk(s) && Enabled(s, Reserve(t, ts)) && s.calls[t].broker == b
    ensures HoldsNext(Next(s, Reserve(t, ts)), Next(s, Reserve(t, ts)).calls[t])
  {
    hide Stamp;
    assert CallOk(s, t, s.calls[t]);
  }

  /** A call that does not step keeps its hold, since nobody else can append to b's log meanwhile. */
  lemma IdleHolds(s: State, step: Step, b: Id, t: Tid)
    requires Holding(s, b) && Enabled(s, step) && Spares(s, step, b)
    requires t in s.calls && s.calls[t].broker == b && !s.calls[t].phase.Waiting? && !(step.Store? && step.t == t)
    ensures LogOf(Next(s, step), b) == LogOf(s, b) && HoldsNext(s, s.calls[t])
  {
    LogView(s, step, b);
    assert CallOk(s, t, s.calls[t]);
    if step.Store? && s.calls[step.t].broker == b {
      LockIsExclusive(s, t, step.t);
    }
  }

  lemma SameHold(s: State, s': State, c: Call, c': Call)
    requires HoldsNext(s, c) && c'.broker == c.broker && c'.recs == c.recs && Done(c') == Done(c)
    requires LogOf(s', c.broker) == LogOf(s, c.broker)
    ensures HoldsNext(s', c')
  {
  }

  lemma ReservationKept(s: State, step: Step, b: Id, t: Tid)
    requires Holding(s, b) && Enabled(s, step) && Spares(s, step, b)
    requires t in Next(s, step).calls && Next(s, step).calls[t].broker == b && !Next(s, step).calls[t].phase.Waiting?
    ensures HoldsNext(Next(s, step), Next(s, step).calls[t])
  {
    CallView(s, step, t);
    hide Next, LogOf, Inv, Stamp, ReservationsHold, Holding, Enabled, Done;
    if step.Store? && step.t == t {
      StoreHolds(s, b, t);
    } else if step.Reserve? && step.t == t {
      ReserveHolds(s, b, t, step.ts);
    } else {
      IdleHolds(s, step, b, t);
      SameHold(s, Next(s, step), s.calls[t], Next(s, step).calls[t]);
    }
  }

  lemma ReserveIsBehind(s: State, b: Id, t: Tid, ts: int, i: nat)
    requires CallsOk(s) && CommitsOk(s) && Enabled(s, Reserve(t, ts)) && s.calls[t].broker == b
    requires i < |s.commits| && s.commits[i].broker == b
    ensures NewRecs(s, t, ts) != [] && End(s.commits[i].recs) <= NewRecs(s, t, ts)[0].offset
  {
    assert CallOk(s, t, s.calls[t]) && CommitOk(s, s.commits[i]);
  }

  /** When a call returns with success, no other call on its broker is past its reservation. */
  lemma NoneBehindFinish(s: State, step: Step)
    requires CallsOk(s) && Enabled(s, step) && step.Finish? && s.calls[step.t].phase.Writing?
    ensures var s' := Next(s, step);
            forall t :: t in s'.calls && s'.calls[t].broker == s.calls[step.t].broker ==> s'.calls[t].phase.Waiting?
  {
    forall t | t in s.calls && t != step.t && s.calls[t].broker == s.calls[step.t].broker
      ensures s.calls[t].phase.Waiting?
    {
      LockIsExclusive(s, step.t, t);
    }
  }

  lemma BehindKept(s: State, step: Step, b: Id)
    requires Inv(s) && Behind(s, b) && Enabled(s, step)
    ensures Behind(Next(s, step), b)
  {
    hide Next, Enabled, Inv, End;
    var s' := Next(s, step);
    forall t, i | t in s'.calls && s'.calls[t].broker == b && !s'.calls[t].phase.Waiting?
                  && 0 <= i < |s'.commits| && s'.commits[i].broker == b
      ensures s'.calls[t].recs != [] && End(s'.commits[i].recs) <= s'.calls[t].recs[0].offset
    {
      OldCommit(s, step, b, t, i);
      hide Behind;
      StaysBehind(s, step, b, t, i);
    }
  }

  /** A commit of b that a call past reservation at b can see is not the one the step adds. */
  lemma OldCommit(s: State, step: Step, b: Id, t: Tid, i: nat)
    requires Inv(s) && Enabled(s, step)
    requires t in Next(s, step).calls && Next(s, step).calls[t].broker == b && !Next(s, step).calls[t].phase.Waiting?
    requires i < |Next(s, step).commits| && Next(s, step).commits[i].broker == b
    ensures i < |s.commits| && Next(s, step).commits[i] == s.commits[i]
  {
    assert CallsOk(s);
    hide Next, Enabled, Inv, CallsOk;
    CommitsView(s, step);
    if Next(s, step).commits != s.commits {
      NoneBehindFinish(s, step);
    }
  }

  lemma StaysBehind(s: State, step: Step, b: Id, t: Tid, i: nat)
    requires Inv(s) && Behind(s, b) && Enabled(s, step) && i < |s.commits| && s.commits[i].broker == b
    requires t in Next(s, step).calls && Next(s, step).calls[t].broker == b && !Next(s, step).calls[t].phase.Waiting?
    ensures var recs := Next(s, step).calls[t].recs; recs != [] && End(s.commits[i].recs) <= recs[0].offset
  {
    CallView(s, step, t);
    if step.Reserve? && step.t == t {
      ReserveIsBehind(s, b, t, step.ts, i);
    }
    hide Next, Inv, End, Done;
  }

  lemma OrderKept(s: State, step: Step, b: Id, k: nat)
    requires SoleInv(s, b, k) && Enabled(s, step)
    ensures Ordered(Next(s, step), b, k)
  {
    hide Next, Enabled, Holding, CommitsInPlace, Behind, End;
    CommitsView(s, step);
    var s' := Next(s, step);
    if s'.commits != s.commits && s.calls[step.t].broker == b {
      FinishIsLast(s, b, step.t);
    }
    forall i, j | 0 <= i < j < |s'.commits| && k <= j && s'.commits[i].broker == b && s'.commits[j].broker == b
      ensures s'.commits[j].recs != [] && End(s'.commits[i].recs) <= s'.commits[j].recs[0].offset
    {
      assert s'.commits[i] == s.commits[i];
    }
  }

  lemma FinishIsLast(s: State, b: Id, t: Tid)
    requires Holding(s, b) && Behind(s, b) && t in s.calls && s.calls[t].broker == b && !s.calls[t].phase.Waiting?
    ensures var recs := s.calls[t].recs;
            recs != [] && forall i :: 0 <= i < |s.commits| && s.commits[i].broker == b ==> End(s.commits[i].recs) <= recs[0].offset
  {
    HolderFacts(s, b, t);
    hide Holding, CallOk, HoldsNext, End;
  }

  lemma PlacesKept(s: State, step: Step, b: Id, k: nat)
    requires SoleInv(s, b, k) && Enabled(s, step)
    ensures CommitsInPlace(Next(s, step), b, k)
  {
    hide Next, LogOf, Holding, Ordered, Behind, Enabled, End;
    LogsOnlyGrow(s, step, b);
    CommitsView(s, step);
    var s' := Next(s, step);
    if s'.commits != s.commits && s.calls[step.t].broker == b {
      FinishIsInPlace(s, b, step.t);
    }
    forall i | k <= i < |s'.commits| && s'.commits[i].broker == b
      ensures InPlace(s', s'.commits[i])
    {
      assert i < |s.commits| ==> InPlace(s, s.commits[i]);
      StretchStays(LogOf(s, b), LogOf(s', b), s'.commits[i].recs);
    }
  }

  lemma FinishIsInPlace(s: State, b: Id, t: Tid)
    requires Holding(s, b) && t in s.calls && s.calls[t].broker == b
    requires s.calls[t].phase.Writing? && s.calls[t].phase.i == |s.calls[t].recs|
    ensures InPlace(s, Commit(b, s.calls[t].follower, s.calls[t].recs))
  {
    hide Inv, LogOf;
    var c := s.calls[t];
    assert HoldsNext(s, c);
    assert c.recs[..|c.recs|] == c.recs;
  }

  lemma StretchStays(log: seq<Record>, log': seq<Record>, recs: seq<Record>)
    requires log <= log' && recs != [] && End(recs) <= |log| && log[recs[0].offset..End(recs)] == recs
    ensures log'[recs[0].offset..End(recs)] == recs
  {
  }

  /** A step that spares b keeps every reservation. */
  lemma HoldingKept(s: State, step: Step, b: Id)
    requires Holding(s, b) && Enabled(s, step) && Spares(s, step, b)
    ensures Holding(Next(s, step), b)
  {
    StepKeeps(s, step);
    forall t | t in Next(s, step).calls && Next(s, step).calls[t].broker == b && !Next(s, step).calls[t].phase.Waiting?
      ensures HoldsNext(Next(s, step), Next(s, step).calls[t])
    {
      ReservationKept(s, step, b, t);
    }
  }

  /** A step that does not spare b breaks the reservation of the call holding b's lock: sparing b is exactly
      what keeps the reservations. */
  lemma SparesIsExact(s: State, step: Step, b: Id)
    requires Holding(s, b) && Enabled(s, step)
    ensures ReservationsHold(Next(s, step), b) <==> Spares(s, step, b)
  {
    if Spares(s, step, b) {
      HoldingKept(s, step, b);
    } else {
      var t := s.locks[b];
      assert HoldsNext(s, s.calls[t]);
      assert Next(s, step).calls == s.calls && |LogOf(Next(s, step), b)| == |LogOf(s, b)| + 1;
      assert !HoldsNext(Next(s, step), s.calls[t]);
    }
  }

  lemma {:induction false} SoleRunKeeps(s: State, steps: seq<Step>, b: Id, k: nat)
    requires SoleInv(s, b, k) && Possible(s, steps) && SoleRun(s, steps, b, false)
    ensures SoleInv(Run(s, steps), b, k)
    ensures s.commits <= Run(s, steps).commits
    decreases |steps|
  {
    if steps != [] {
      var x := steps[0];
      CommitsView(s, x);
      PlacesKept(s, x, b, k);
      OrderKept(s, x, b, k);
      BehindKept(s, x, b);
      HoldingKept(s, x, b);
      hide Next, Enabled, Holding, CommitsInPlace, Ordered, Behind, Spares, Gentle;
      SoleRunKeeps(Next(s, x), steps[1..], b, k);
    }
  }

  // ----- the promises to concurrent producers -----

  /** A reachable state in which no write holds b's lock; what b was before does not matter. */
  ghost predicate AtRest(m: State, b: Id) {
    && b !in m.locks
    && exists leader: Id, past :: Possible(Initial(leader), past) && Run(Initial(leader), past) == m
  }

  lemma RestIsHolding(m: State, b: Id)
    requires AtRest(m, b)
    ensures SoleInv(m, b, |m.commits|)
  {
    var leader: Id, past :| Possible(Initial(leader), past) && Run(Initial(leader), past) == m;
    RunKeeps(Initial(leader), past);
    forall t | t in m.calls && m.calls[t].broker == b
      ensures m.calls[t].phase.Waiting?
    {
      assert CallOk(m, t, m.calls[t]);
    }
  }

  /** From reservation to its last append, a call's reserved offset plus what it appended is the log's next offset. */
  lemma ReservedIsNext(m: State, steps: seq<Step>, b: Id, t: Tid)
    requires AtRest(m, b) && Possible(m, steps) && SoleRun(m, steps, b, false)
    requires var s := Run(m, steps); t in s.calls && s.calls[t].broker == b && !s.calls[t].phase.Waiting?
    ensures HoldsNext(Run(m, steps), Run(m, steps).calls[t])
  {
    RestIsHolding(m, b);
    SoleRunKeeps(m, steps, b, |m.commits|);
  }

  /** Writes answered since m have pairwise disjoint ranges, in the order of the answers and behind all ranges
      answered before m, and each of their ranges still holds exactly the records of its write. */
  lemma RangesAreDisjoint(m: State, steps: seq<Step>, b: Id)
    requires AtRest(m, b) && Possible(m, steps) && SoleRun(m, steps, b, false)
    ensures var s := Run(m, steps); Ordered(s, b, |m.commits|) && CommitsInPlace(s, b, |m.commits|)
  {
    RestIsHolding(m, b);
    SoleRunKeeps(m, steps, b, |m.commits|);
  }

  /** A write answered later, and so also one that only starts later, gets larger offsets
      than every write answered before. */
  lemma LaterGetsLarger(m: State, before: seq<Step>, after: seq<Step>, b: Id, i: nat, j: nat)
    requires AtRest(m, b) && Possible(m, before) && SoleRun(m, before, b, false)
    requires var n := Run(m, before);
             Possible(n, after) && SoleRun(n, after, b, false) && i < |n.commits| <= j < |Run(n, after).commits|
    requires var s := Run(Run(m, before), after); s.commits[i].broker == b == s.commits[j].broker
    ensures var n, s := Run(m, before), Run(Run(m, before), after);
            n.commits[i] == s.commits[i] && s.commits[j].recs != [] && End(n.commits[i].recs) <= s.commits[j].recs[0].offset
  {
    RestIsHolding(m, b);
    SoleRunKeeps(m, before, b, |m.commits|);
    SoleRunKeeps(Run(m, before), after, b, |m.commits|);
  }

  // ----- without disk errors -----

  /** The records of b's commits, one after the other. */
  function Committed(commits: seq<Commit>, b: Id): seq<Record> {
    if commits == [] then []
    else
      var last := commits[|commits| - 1];
      Committed(commits[..|commits| - 1], b) + if last.broker == b then last.recs else []
  }

  /** What the call holding b's lock has appended so far. */
  function Pending(s: State, b: Id): seq<Record> {
    if b in s.locks && s.locks[b] in s.calls && Done(s.calls[s.locks[b]]) <= |s.calls[s.locks[b]].recs|
    then s.calls[s.locks[b]].recs[..Done(s.calls[s.locks[b]])]
    else []
  }

  lemma CommittedSnoc(commits: seq<Commit>, c: Commit, b: Id)
    ensures Committed(commits + [c], b) == Committed(commits, b) + if c.broker == b then c.recs else []
  {
    assert (commits + [c])[..|commits|] == commits;
  }

  /** b's log is `base`, the writes of b committed from number k on, and what b's lock holder has appended. */
  ghost predicate IsConcat(s: State, b: Id, base: seq<Record>, k: nat) {
    k <= |s.commits| && LogOf(s, b) == base + Committed(s.commits[k..], b) + Pending(s, b)
  }

  lemma PendingOf(s: State, b: Id, t: Tid)
    requires CallsOk(s) && t in s.calls && s.calls[t].broker == b && !s.calls[t].phase.Waiting?
    ensures Done(s.calls[t]) <= |s.calls[t].recs| && Pending(s, b) == s.calls[t].recs[..Done(s.calls[t])]
  {
    assert CallOk(s, t, s.calls[t]);
  }

  lemma StorePends(s: State, b: Id, t: Tid)
    requires CallsOk(s) && Enabled(s, Store(t)) && s.calls[t].broker == b
    ensures Pending(Next(s, Store(t)), b) == Pending(s, b) + [s.calls[t].recs[s.calls[t].phase.i]]
    ensures Next(s, Store(t)).commits == s.commits
  {
    hide Next, LogOf, Contiguous, End;
    var c, s' := s.calls[t], Next(s, Store(t));
    assert CallOk(s, t, c);
    StoreMoves(s, t);
    assert c.recs[..c.phase.i + 1] == c.recs[..c.phase.i] + [c.recs[c.phase.i]];
  }

  lemma StoreConcat(s: State, b: Id, t: Tid, base: seq<Record>, k: nat)
    requires Holding(s, b) && Enabled(s, Store(t)) && s.calls[t].broker == b && IsConcat(s, b, base, k)
    ensures IsConcat(Next(s, Store(t)), b, base, k)
  {
    HoldingCalls(s, b);
    assert s.calls[t].phase.Writing?;
    hide Next, Enabled, LogOf, Pending, Committed, Holding, CallsOk, HoldsNext, Done;
    StoreAdds(s, b, t);
    StorePends(s, b, t);
    Associate(base + Committed(s.commits[k..], b), Pending(s, b), [s.calls[t].recs[s.calls[t].phase.i]]);
  }

  lemma FinishConcat(s: State, b: Id, t: Tid, base: seq<Record>, k: nat)
    requires Holding(s, b) && Enabled(s, Finish(t)) && s.calls[t].broker == b && IsConcat(s, b, base, k)
    ensures IsConcat(Next(s, Finish(t)), b, base, k)
  {
    HoldingCalls(s, b);
    FinishPends(s, b, t);
    FinishCommits(s, b, t, k);
    LogsOnlyStored(s, b, t);
    hide Next, Enabled, LogOf, Pending, Committed, Holding, CallsOk;
    Glue(base, Committed(s.commits[k..], b), s.calls[t].recs);
  }

  lemma HoldingCalls(s: State, b: Id)
    requires Holding(s, b)
    ensures CallsOk(s)
  {
    hide CallsOk, ReservationsHold;
  }

  lemma LogsOnlyStored(s: State, b: Id, t: Tid)
    requires Enabled(s, Finish(t))
    ensures LogOf(Next(s, Finish(t)), b) == LogOf(s, b)
  {
  }

  lemma Glue(a: seq<Record>, b: seq<Record>, c: seq<Record>)
    ensures a + b + c == a + (b + c) + []
  {
    Associate(a, b, c);
  }

  lemma FinishPends(s: State, b: Id, t: Tid)
    requires CallsOk(s) && Enabled(s, Finish(t)) && s.calls[t].broker == b
    ensures t in s.calls && Pending(s, b) == s.calls[t].recs && Pending(Next(s, Finish(t)), b) == []
  {
    hide LogOf, CallOk;
    PendingOf(s, b, t);
    var recs := s.calls[t].recs;
    assert recs[..|recs|] == recs;
    LockIsFree(s, b, t);
  }

  lemma LockIsFree(s: State, b: Id, t: Tid)
    requires Enabled(s, Finish(t)) && s.calls[t].broker == b
    ensures b !in Next(s, Finish(t)).locks
  {
  }

  lemma FinishCommits(s: State, b: Id, t: Tid, k: nat)
    requires Enabled(s, Finish(t)) && s.calls[t].broker == b && k <= |s.commits|
    ensures var commits := Next(s, Finish(t)).commits;
            k <= |commits| && Committed(commits[k..], b) == Committed(s.commits[k..], b) + s.calls[t].recs
  {
    var c := s.calls[t];
    var commit := Commit(c.broker, c.follower, c.recs);
    CommittedSnoc(s.commits[k..], commit, b);
    assert (s.commits + [commit])[k..] == s.commits[k..] + [commit];
  }

  /** Any other gentle step leaves the pending records of b alone. */
  lemma PendingStays(s: State, step: Step, b: Id)
    requires CallsOk(s) && LocksOk(s) && Enabled(s, step) && Gentle(s, step, b)
    requires (step.Store? || step.Finish?) ==> s.calls[step.t].broker != b
    ensures Pending(Next(s, step), b) == Pending(s, b)
  {
    hide LogOf, Stamp, Plan, Gap, Accept, CallsOk, CallOk;
    var s' := Next(s, step);
    if b in s.locks {
      var t := s.locks[b];
      PendingOf(s, b, t);
      if !Steps(step, t) {
        assert t in s'.calls;
        OthersUntouched(s, step, t);
      } else {
        HolderStays(s, step, b, t);
      }
    }
  }

  lemma HolderStays(s: State, step: Step, b: Id, t: Tid)
    requires CallsOk(s) && Enabled(s, step) && Gentle(s, step, b) && Steps(step, t) && !step.Store? && !step.Finish?
    requires b in s.locks && s.locks[b] == t && t in s.calls && s.calls[t].broker == b && !s.calls[t].phase.Waiting?
    ensures Pending(Next(s, step), b) == Pending(s, b) == []
  {
    hide LogOf, Stamp, Plan, Gap, Accept, Contiguous, End;
    assert CallOk(s, t, s.calls[t]);
    assert s.calls[t].recs[..0] == [];
  }

  lemma ConcatKept(s: State, step: Step, b: Id, base: seq<Record>, k: nat)
    requires Holding(s, b) && Enabled(s, step) && Spares(s, step, b) && Gentle(s, step, b) && IsConcat(s, b, base, k)
    ensures IsConcat(Next(s, step), b, base, k)
  {
    if step.Store? && s.calls[step.t].broker == b {
      StoreConcat(s, b, step.t, base, k);
    } else if step.Finish? && s.calls[step.t].broker == b {
      FinishConcat(s, b, step.t, base, k);
    } else {
      PendingStays(s, step, b);
      CommittedStays(s, step, b, k);
      LogView(s, step, b);
      hide Next, LogOf, Inv, Pending, Committed, Holding, Enabled;
    }
  }

  /** Only a write handled at b commits for b. */
  lemma CommittedStays(s: State, step: Step, b: Id, k: nat)
    requires Enabled(s, step) && k <= |s.commits| && (step.Finish? ==> s.calls[step.t].broker != b)
    ensures k <= |Next(s, step).commits| && Committed(Next(s, step).commits[k..], b) == Committed(s.commits[k..], b)
  {
    CommitsView(s, step);
    hide Next, Enabled, Committed;
    var commits := Next(s, step).commits;
    if commits != s.commits {
      assert commits[k..] == s.commits[k..] + [commits[|s.commits|]];
      CommittedSnoc(s.commits[k..], commits[|s.commits|], b);
    }
  }

  lemma {:induction false} ConcatOverRun(s: State, steps: seq<Step>, b: Id, base: seq<Record>, k: nat)
    requires Holding(s, b) && Possible(s, steps) && SoleRun(s, steps, b, true)
    requires IsConcat(s, b, base, k)
    ensures IsConcat(Run(s, steps), b, base, k)
    decreases |steps|
  {
    if steps != [] {
      var x := steps[0];
      ConcatKept(s, x, b, base, k);
      HoldingKept(s, x, b);
      hide Next, Enabled, Holding, IsConcat;
      ConcatOverRun(Next(s, x), steps[1..], b, base, k);
    }
  }

  /** Without disk errors, crashes and messages for b, the log of b is what it was, the writes it committed since in
      the order in which they held the lock, and what the current holder has appended. */
  lemma LogIsCommittedWrites(m: State, steps: seq<Step>, b: Id)
    requires AtRest(m, b) && Possible(m, steps) && SoleRun(m, steps, b, true)
    ensures var s := Run(m, steps);
            && |m.commits| <= |s.commits|
            && LogOf(s, b) == LogOf(m, b) + Committed(s.commits[|m.commits|..], b) + Pending(s, b)
  {
    RestIsHolding(m, b);
    assert LogOf(m, b) == LogOf(m, b) + [] + [];
    assert m.commits[|m.commits|..] == [];
    ConcatOverRun(m, steps, b, LogOf(m, b), |m.commits|);
  }
}
