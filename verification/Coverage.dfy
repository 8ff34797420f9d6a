/** What every run of the protocol keeps, with no assumption on assignments, network or crashes. Of a disk that fails,
    the protocol knows that a restart finds nothing behind the log or the record that was being appended; lives of a
    log in which it finds something else, untidy ones in the sense of LogRuns, are outside of it. */
module Coverage {
  import opened Records
  import opened Replication
  import opened Protocol

  /** Every log is without holes and knows where each of its entries came from. */
  ghost predicate LogsOk(s: State) {
    forall b: Id :: Dense(LogOf(s, b)) && |OriginsOf(s, b)| == |LogOf(s, b)|
  }

  /** A call past reservation holds its broker's lock and contiguous offsets that its broker's log has reached;
      once it may append locally, its follower has an entry at every one of its offsets. */
  ghost predicate CallOk(s: State, t: Tid, c: Call) {
    && c.follower != Some(c.broker)
    && c.payload != []
    && (!c.phase.Waiting? ==>
          && c.broker in s.locks && s.locks[c.broker] == t
          && c.recs != [] && Contiguous(c.recs[0].offset, c.recs)
          && c.recs[0].offset <= |LogOf(s, c.broker)|)
    && (c.phase.Asking? || c.phase.Sending? ==> c.follower.Some?)
    && (c.phase.Sending? ==> c.phase.todo != [] && c.phase.todo[|c.phase.todo| - 1] == c.recs)
    && (c.phase.Writing? ==>
          && c.phase.i <= |c.recs|
          && c.recs[0].offset + c.phase.i <= |LogOf(s, c.broker)|
          && (c.follower.Some? ==> End(c.recs) <= |LogOf(s, c.follower.value)|))
  }

  ghost predicate CallsOk(s: State) {
    forall t :: t in s.calls ==> CallOk(s, t, s.calls[t])
  }

  ghost predicate LocksOk(s: State) {
    forall b :: b in s.locks ==>
      s.locks[b] in s.calls && s.calls[s.locks[b]].broker == b && !s.calls[s.locks[b]].phase.Waiting?
  }

  /** Applied records have entries at the destination; a record left by a failed local append of a write that
      named a follower has an entry there. */
  ghost predicate RpcOk(s: State, m: Rpc) {
    && m.done <= |m.recs|
    && (forall j :: 0 <= j < m.done ==> m.recs[j].offset < |LogOf(s, m.dest)|)
    && (forall j :: 0 <= j < |m.recs| ==> OriginOk(s, m.origin, m.dest, m.recs[j].offset))
  }

  ghost predicate RpcsOk(s: State) {
    forall rid :: rid in s.rpcs ==> RpcOk(s, s.rpcs[rid])
  }

  ghost predicate CommitOk(s: State, c: Commit) {
    && c.recs != [] && Contiguous(c.recs[0].offset, c.recs)
    && End(c.recs) <= |LogOf(s, c.broker)|
    && (c.follower.Some? ==> End(c.recs) <= |LogOf(s, c.follower.value)|)
  }

  ghost predicate CommitsOk(s: State) {
    forall i :: 0 <= i < |s.commits| ==> CommitOk(s, s.commits[i])
  }

  /** An entry appended by a write that named another broker as follower has an entry at its offset there. */
  ghost predicate OriginsOk(s: State) {
    forall b: Id, k :: 0 <= k < |OriginsOf(s, b)| ==> OriginOk(s, OriginsOf(s, b)[k], b, k)
  }

  ghost predicate OriginOk(s: State, o: Origin, b: Id, k: nat) {
    match o
    case Received(from) => from != b
    case Local(None) => true
    case Local(Some(f)) => f != b && k < |LogOf(s, f)|
  }

  ghost predicate Inv(s: State) {
    LogsOk(s) && CallsOk(s) && LocksOk(s) && RpcsOk(s) && CommitsOk(s) && OriginsOk(s)
  }

  // ----- one step -----

  lemma LogsKept(s: State, step: Step)
    requires LogsOk(s) && Enabled(s, step)
    ensures LogsOk(Next(s, step))
  {
    hide Next, Enabled, LogOf, OriginsOf, Added;
    var s' := Next(s, step);
    forall b: Id
      ensures Dense(LogOf(s', b)) && |OriginsOf(s', b)| == |LogOf(s', b)|
    {
      OnlyAdded(s, step, b);
      assert Dense(LogOf(s, b)) && |OriginsOf(s, b)| == |LogOf(s, b)|;
    }
  }

  lemma AllLogsGrow(s: State, step: Step)
    requires Enabled(s, step)
    ensures forall b: Id :: LogOf(s, b) <= LogOf(Next(s, step), b)
    ensures forall b: Id :: OriginsOf(s, b) <= OriginsOf(Next(s, step), b)
  {
    hide Next, Enabled, LogOf, OriginsOf;
    forall b: Id
      ensures LogOf(s, b) <= LogOf(Next(s, step), b) && OriginsOf(s, b) <= OriginsOf(Next(s, step), b)
    {
      LogsOnlyGrow(s, step, b);
    }
  }

  lemma CallGrows(s: State, s': State, t: Tid, c: Call)
    requires CallOk(s, t, c)
    requires forall b: Id :: |LogOf(s, b)| <= |LogOf(s', b)|
    requires !c.phase.Waiting? ==> c.broker in s'.locks && s'.locks[c.broker] == t
    ensures CallOk(s', t, c)
  {
  }

  /** Two calls of one broker cannot both be past reservation. */
  lemma LockIsExclusive(s: State, t: Tid, u: Tid)
    requires CallsOk(s) && t in s.calls && u in s.calls && t != u
    requires s.calls[t].broker == s.calls[u].broker && !s.calls[t].phase.Waiting?
    ensures s.calls[u].phase.Waiting?
  {
    assert CallOk(s, t, s.calls[t]) && CallOk(s, u, s.calls[u]);
  }

  predicate Steps(step: Step, u: Tid) {
    match step
    case Start(t, _, _, _, _) => t == u
    case Reserve(t, _) => t == u
    case Ask(t) => t == u
    case Ack(t, _) => t == u
    case Store(t) => t == u
    case DiskFail(t, _) => t == u
    case Finish(t) => t == u
    case GiveUp(t) => t == u
    case _ => false
  }

  /** The step ends a call past reservation, which gives its lock back. */
  predicate Unlocks(s: State, step: Step)
    requires Enabled(s, step)
  {
    (step.DiskFail? || step.Finish? || step.GiveUp?) && !s.calls[step.t].phase.Waiting?
  }

  /** A call that another thread's step leaves in place is unchanged, and keeps its lock. */
  lemma OthersUntouched(s: State, step: Step, u: Tid)
    requires CallsOk(s) && Enabled(s, step) && u in s.calls && u in Next(s, step).calls && !Steps(step, u)
    ensures var c, s' := s.calls[u], Next(s, step);
            s'.calls[u] == c
            && (!c.phase.Waiting? ==> c.broker in s'.locks && s'.locks[c.broker] == u)
  {
    assert CallOk(s, u, s.calls[u]);
    if Unlocks(s, step) {
      assert CallOk(s, step.t, s.calls[step.t]);
    }
    hide CallsOk, CallOk;
    KeepsPlace(s, step, u);
  }

  lemma KeepsPlace(s: State, step: Step, u: Tid)
    requires Enabled(s, step) && u in s.calls && u in Next(s, step).calls && !Steps(step, u)
    requires var c := s.calls[u]; !c.phase.Waiting? ==> c.broker in s.locks && s.locks[c.broker] == u
    requires Unlocks(s, step) ==> s.calls[step.t].broker in s.locks && s.locks[s.calls[step.t].broker] == step.t
    ensures var c, s' := s.calls[u], Next(s, step);
            s'.calls[u] == c
            && (!c.phase.Waiting? ==> c.broker in s'.locks && s'.locks[c.broker] == u)
  {
    hide LogOf, Stamp, Plan, Gap, Accept;
  }

  lemma ReserveKeeps(s: State, t: Tid, ts: int)
    requires CallsOk(s) && Enabled(s, Reserve(t, ts))
    ensures CallOk(Next(s, Reserve(t, ts)), t, Next(s, Reserve(t, ts)).calls[t])
  {
    hide Stamp;
    assert CallOk(s, t, s.calls[t]);
  }

  lemma AskKeeps(s: State, t: Tid)
    requires CallsOk(s) && Enabled(s, Ask(t))
    ensures CallOk(Next(s, Ask(t)), t, Next(s, Ask(t)).calls[t])
  {
    hide Plan, Gap;
    assert CallOk(s, t, s.calls[t]);
  }

  lemma AckKeeps(s: State, t: Tid, rid: Rid)
    requires CallsOk(s) && RpcsOk(s) && Enabled(s, Ack(t, rid))
    ensures CallOk(Next(s, Ack(t, rid)), t, Next(s, Ack(t, rid)).calls[t])
  {
    var c, m := s.calls[t], s.rpcs[rid];
    assert CallOk(s, t, c) && RpcOk(s, m);
    if |c.phase.todo| == 1 {
      assert m.recs[|c.recs| - 1].offset < |LogOf(s, m.dest)|;
    }
  }

  lemma StoreKeeps(s: State, t: Tid)
    requires CallsOk(s) && Enabled(s, Store(t))
    ensures CallOk(Next(s, Store(t)), t, Next(s, Store(t)).calls[t])
  {
    assert CallOk(s, t, s.calls[t]);
    LogsOnlyGrow(s, Store(t), s.calls[t].broker);
    if s.calls[t].follower.Some? {
      LogsOnlyGrow(s, Store(t), s.calls[t].follower.value);
    }
  }

  lemma CallsKept(s: State, step: Step)
    requires Inv(s) && Enabled(s, step)
    ensures CallsOk(Next(s, step))
  {
    hide LogOf, Stamp, Plan, Gap, Accept, CallOk, LogsOk, RpcsOk, CommitsOk, OriginsOk;
    var s' := Next(s, step);
    AllLogsGrow(s, step);
    forall u | u in s'.calls
      ensures CallOk(s', u, s'.calls[u])
    {
      if !Steps(step, u) {
        OthersUntouched(s, step, u);
        CallGrows(s, s', u, s.calls[u]);
      } else {
        match step
        case Start(t, b, f, batch, payload) => StartKeeps(s, t, b, f, batch, payload);
        case Reserve(t, ts) => ReserveKeeps(s, t, ts);
        case Ask(t) => AskKeeps(s, t);
        case Ack(t, rid) => AckKeeps(s, t, rid);
        case Store(t) => StoreKeeps(s, t);
        case _ =>
      }
    }
  }

  lemma StartKeeps(s: State, t: Tid, b: Id, f: Option<Id>, batch: bool, payload: seq<Payload>)
    requires Enabled(s, Start(t, b, f, batch, payload))
    ensures CallOk(Next(s, Start(t, b, f, batch, payload)), t, Next(s, Start(t, b, f, batch, payload)).calls[t])
  {
  }

  lemma LocksKept(s: State, step: Step)
    requires CallsOk(s) && LocksOk(s) && Enabled(s, step)
    ensures LocksOk(Next(s, step))
  {
    hide Next, Enabled, CallOk;
    var s' := Next(s, step);
    forall b | b in s'.locks
      ensures s'.locks[b] in s'.calls && s'.calls[s'.locks[b]].broker == b && !s'.calls[s'.locks[b]].phase.Waiting?
    {
      LockKept(s, step, b);
    }
  }

  lemma LockKept(s: State, step: Step, b: Id)
    requires Enabled(s, step) && b in Next(s, step).locks
    requires b in s.locks ==>
               s.locks[b] in s.calls && s.calls[s.locks[b]].broker == b && !s.calls[s.locks[b]].phase.Waiting?
    ensures var t, s' := Next(s, step).locks[b], Next(s, step);
            t in s'.calls && s'.calls[t].broker == b && !s'.calls[t].phase.Waiting?
  {
    hide LogOf, Stamp, Plan, Gap, Accept;
  }

  /** A message after a step is an old one, a fresh one, one left by a failed append, or an old one with one more
      record applied. */
  lemma RpcsView(s: State, step: Step, rid: Rid)
    requires Enabled(s, step) && rid in Next(s, step).rpcs
    ensures var m := Next(s, step).rpcs[rid];
            || (rid in s.rpcs && m == s.rpcs[rid])
            || (rid !in s.rpcs && step.Send? && m.done == 0 && s.calls[step.t].follower == Some(m.dest) && m.origin == Received(s.calls[step.t].broker))
            || (rid !in s.rpcs && step.DiskFail? && m == Residue(s.calls[step.t]))
            || (rid in s.rpcs && m.done == s.rpcs[rid].done + 1 <= |m.recs| && m == s.rpcs[rid].(done := m.done)
                && m.recs[s.rpcs[rid].done].offset < |LogOf(Next(s, step), m.dest)|)
  {
    hide Stamp, Plan, Gap;
  }

  lemma RpcGrows(s: State, s': State, m: Rpc, m': Rpc)
    requires RpcOk(s, m) && m' == m.(done := m'.done)
    requires m'.done == m.done || (m'.done == m.done + 1 <= |m.recs| && m.recs[m.done].offset < |LogOf(s', m.dest)|)
    requires forall b: Id :: |LogOf(s, b)| <= |LogOf(s', b)|
    ensures RpcOk(s', m')
  {
  }

  /** What a failed local append leaves behind goes by the write's own origin. */
  lemma ResidueIsCovered(s: State, t: Tid)
    requires CallsOk(s) && t in s.calls && s.calls[t].phase.Writing? && s.calls[t].phase.i < |s.calls[t].recs|
    ensures RpcOk(s, Residue(s.calls[t]))
  {
    assert CallOk(s, t, s.calls[t]);
  }

  lemma RpcKept(s: State, step: Step, rid: Rid)
    requires CallsOk(s) && RpcsOk(s) && Enabled(s, step) && rid in Next(s, step).rpcs
    ensures RpcOk(Next(s, step), Next(s, step).rpcs[rid])
  {
    var s' := Next(s, step);
    AllLogsGrow(s, step);
    RpcsView(s, step, rid);
    if rid in s.rpcs {
      hide Next, LogOf, CallsOk, Enabled, RpcOk;
      assert RpcOk(s, s.rpcs[rid]);
      RpcGrows(s, s', s.rpcs[rid], s'.rpcs[rid]);
    } else if step.DiskFail? {
      ResidueIsCovered(s, step.t);
      hide Next, LogOf, CallsOk, RpcOk;
      RpcGrows(s, s', Residue(s.calls[step.t]), s'.rpcs[rid]);
    } else {
      assert CallOk(s, step.t, s.calls[step.t]);
      hide Next, LogOf, CallsOk, Contiguous, End;
    }
  }

  lemma RpcsKept(s: State, step: Step)
    requires CallsOk(s) && RpcsOk(s) && Enabled(s, step)
    ensures RpcsOk(Next(s, step))
  {
    hide Next, Enabled, RpcOk, CallsOk;
    forall rid | rid in Next(s, step).rpcs
      ensures RpcOk(Next(s, step), Next(s, step).rpcs[rid])
    {
      RpcKept(s, step, rid);
    }
  }

  lemma CommitsView(s: State, step: Step)
    requires Enabled(s, step)
    ensures Next(s, step).commits == s.commits
            || (step.Finish? && step.t in s.calls && s.calls[step.t].phase.Writing? && s.calls[step.t].phase.i == |s.calls[step.t].recs|
                && Next(s, step).commits == s.commits + [Commit(s.calls[step.t].broker, s.calls[step.t].follower, s.calls[step.t].recs)])
  {
    hide LogOf, Stamp, Plan, Gap, Accept;
  }

  lemma CommitsKept(s: State, step: Step)
    requires CallsOk(s) && CommitsOk(s) && Enabled(s, step)
    ensures CommitsOk(Next(s, step))
  {
    AllLogsGrow(s, step);
    CommitsView(s, step);
    if step.Finish? {
      assert CallOk(s, step.t, s.calls[step.t]);
    }
    hide Next, LogOf;
    var s' := Next(s, step);
    forall i | 0 <= i < |s'.commits|
      ensures CommitOk(s', s'.commits[i])
    {
      assert i < |s.commits| ==> CommitOk(s, s.commits[i]);
    }
  }

  /** Only an application of a message and a local append add entries, at the end and under their own name. */
  lemma OriginsView(s: State, step: Step, b: Id)
    requires LogsOk(s) && Enabled(s, step)
    ensures var o, o' := OriginsOf(s, b), OriginsOf(Next(s, step), b);
            || o' == o
            || (step.Apply? && b == s.rpcs[step.rid].dest && o' == o + [s.rpcs[step.rid].origin]
                && s.rpcs[step.rid].recs[s.rpcs[step.rid].done].offset == |o|)
            || (step.Store? && b == s.calls[step.t].broker && o' == o + [Local(s.calls[step.t].follower)]
                && s.calls[step.t].recs[s.calls[step.t].phase.i].offset == |o|)
  {
    OnlyAdded(s, step, b);
    hide Next, LogOf, OriginsOf;
  }

  /** A new entry is covered when it is made. */
  lemma NewOriginOk(s: State, step: Step, b: Id, k: nat)
    requires CallsOk(s) && LogsOk(s) && RpcsOk(s) && Enabled(s, step)
    requires |OriginsOf(s, b)| <= k < |OriginsOf(Next(s, step), b)|
    ensures OriginOk(s, OriginsOf(Next(s, step), b)[k], b, k)
  {
    OriginsView(s, step, b);
    if step.Store? {
      assert CallOk(s, step.t, s.calls[step.t]);
    }
    if step.Apply? {
      assert RpcOk(s, s.rpcs[step.rid]);
    }
    hide Next, LogOf, OriginsOf;
  }

  lemma OriginsKept(s: State, step: Step)
    requires CallsOk(s) && LogsOk(s) && RpcsOk(s) && OriginsOk(s) && Enabled(s, step)
    ensures OriginsOk(Next(s, step))
  {
    AllLogsGrow(s, step);
    hide Next, Enabled, LogOf, OriginsOf, CallsOk, LogsOk, RpcsOk;
    var s' := Next(s, step);
    forall b: Id, k | 0 <= k < |OriginsOf(s', b)|
      ensures OriginOk(s', OriginsOf(s', b)[k], b, k)
    {
      if k < |OriginsOf(s, b)| {
        assert OriginOk(s, OriginsOf(s, b)[k], b, k);
      } else {
        NewOriginOk(s, step, b, k);
      }
    }
  }

  lemma StepKeeps(s: State, step: Step)
    requires Inv(s) && Enabled(s, step)
    ensures Inv(Next(s, step))
  {
    LogsKept(s, step);
    CallsKept(s, step);
    LocksKept(s, step);
    RpcsKept(s, step);
    CommitsKept(s, step);
    OriginsKept(s, step);
  }

  // ----- whole runs -----

  lemma {:induction false} RunKeeps(s: State, steps: seq<Step>)
    requires Inv(s) && Possible(s, steps)
    ensures Inv(Run(s, steps))
    decreases |steps|
  {
    if steps != [] {
      StepKeeps(s, steps[0]);
      RunKeeps(Next(s, steps[0]), steps[1..]);
    }
  }

  /** In every run from the empty cluster, whatever is lost, retried, stale or crashed: a broker about to append
      locally for a write that names a follower finds an entry at every offset up to the write's last one
      on that follower. */
  lemma AppendOnlyAfterFollower(leader: Id, steps: seq<Step>, t: Tid)
    requires Possible(Initial(leader), steps)
    requires Enabled(Run(Initial(leader), steps), Store(t))
    ensures var s := Run(Initial(leader), steps);
            var c := s.calls[t];
            c.follower.Some? ==>
              c.follower.value != c.broker && c.recs[c.phase.i].offset < End(c.recs) <= |LogOf(s, c.follower.value)|
  {
    RunKeeps(Initial(leader), steps);
    var s := Run(Initial(leader), steps);
    assert CallOk(s, t, s.calls[t]);
  }

  /** A fetch at any broker, in any reachable state, only shows records that were received from another
      broker, or whose write named no follower, or at whose offset the follower the write named has an entry;
      also when the record was left behind by a failed local append and found at the next restart. */
  lemma FetchShowsReplicated(leader: Id, steps: seq<Step>, b: Id, k: nat)
    requires Possible(Initial(leader), steps)
    requires k < |LogOf(Run(Initial(leader), steps), b)|
    ensures var s := Run(Initial(leader), steps);
            && |OriginsOf(s, b)| == |LogOf(s, b)|
            && LogOf(s, b)[k].offset == k
            && match OriginsOf(s, b)[k]
               case Received(from) => from != b
               case Local(None) => true
               case Local(Some(f)) => f != b && k < |LogOf(s, f)|
  {
    RunKeeps(Initial(leader), steps);
    var s := Run(Initial(leader), steps);
    assert OriginOk(s, OriginsOf(s, b)[k], b, k);
  }

  /** Every write answered as committed has an entry at each of its offsets on its broker and its follower, for ever. */
  lemma CommitsStayCovered(leader: Id, steps: seq<Step>, i: nat)
    requires Possible(Initial(leader), steps)
    requires i < |Run(Initial(leader), steps).commits|
    ensures var s := Run(Initial(leader), steps);
            CommitOk(s, s.commits[i])
  {
    RunKeeps(Initial(leader), steps);
  }
}
