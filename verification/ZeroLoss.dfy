/** Agreement of everything around and survival of every committed record, each with its exact condition on every
    step of every run; three hypotheses on the deployment that suffice for both; and runs showing that none
    of the three can be dropped. */
module ZeroLoss {
  import opened Records
  import opened Replication
  import opened Protocol
  import opened Coverage

  // ----- which records are still around -----

  /** The records a call still intends to store or send. */
  predicate Holds(c: Call, r: Record) {
    && !c.phase.Waiting?
    && (r in c.recs || (c.phase.Sending? && exists i :: 0 <= i < |c.phase.todo| && r in c.phase.todo[i]))
  }

  /** A record is around when a log stores it, a message carries it, or a call holds it. */
  ghost predicate Around(s: State, r: Record) {
    || (exists b: Id :: r in LogOf(s, b))
    || (exists rid :: rid in s.rpcs && r in s.rpcs[rid].recs)
    || (exists t :: t in s.calls && Holds(s.calls[t], r))
  }

  /** At most one record is around for each offset. */
  ghost predicate Agreement(s: State) {
    forall q, r :: Around(s, q) && Around(s, r) && q.offset == r.offset ==> q == r
  }

  // ----- the hypotheses, as guards on single steps -----

  function Top(commits: seq<Commit>): Commit
    requires commits != []
  {
    var last := commits[|commits| - 1];
    if |commits| == 1 then last
    else
      var top := Top(commits[..|commits| - 1]);
      if End(last.recs) < End(top.recs) then top else last
  }

  /** The brokers that acked the commit with the highest offsets. */
  predicate HoldsLast(commits: seq<Commit>, b: Id) {
    commits == [] || Top(commits).broker == b || Top(commits).follower == Some(b)
  }

  /** Reserved offsets are new, or were last given to the very same record. */
  ghost predicate NoReuse(s: State, recs: seq<Record>) {
    forall q, i :: 0 <= i < |recs| && Around(s, q) && q.offset == recs[i].offset ==> q == recs[i]
  }

  /** Which guards a run obeys. */
  datatype Guards = Guards(noReuse: bool, throughLeader: bool, safePromotion: bool)

  const ALL := Guards(true, true, true)
  const REUSE_FREE := Guards(true, false, false)

  ghost predicate Prudent(g: Guards, s: State, step: Step)
    requires Enabled(s, step)
  {
    match step
    case Reserve(t, ts) => g.noReuse ==> NoReuse(s, NewRecs(s, t, ts))
    case Finish(t) => g.throughLeader ==> s.calls[t].broker == s.leader || s.calls[t].follower == Some(s.leader)
    case Reassign(l) => g.safePromotion ==> l == s.leader || HoldsLast(s.commits, l)
    case _ => true
  }

  ghost predicate PrudentRun(g: Guards, s: State, steps: seq<Step>)
    requires Possible(s, steps)
    decreases |steps|
  {
    steps == [] || (Prudent(g, s, steps[0]) && PrudentRun(g, Next(s, steps[0]), steps[1..]))
  }

  // ----- no step invents a record except a reservation -----

  lemma LogsSayNothingNew(s: State, step: Step, b: Id, r: Record)
    requires Enabled(s, step) && r in LogOf(Next(s, step), b)
    ensures Around(s, r)
  {
    hide Stamp, Plan, Gap, Around;
    if r in LogOf(s, b) {
      AroundInLog(s, b, r);
    } else if step.Apply? {
      AroundInRpc(s, step.rid, r);
    } else if step.Store? {
      AroundInCall(s, step.t, r);
    }
  }

  lemma AroundInLog(s: State, b: Id, r: Record)
    requires r in LogOf(s, b)
    ensures Around(s, r)
  {
  }

  lemma AroundInRpc(s: State, rid: Rid, r: Record)
    requires rid in s.rpcs && r in s.rpcs[rid].recs
    ensures Around(s, r)
  {
  }

  lemma AroundInCall(s: State, t: Tid, r: Record)
    requires t in s.calls && Holds(s.calls[t], r)
    ensures Around(s, r)
  {
  }

  lemma RpcsSayNothingNew(s: State, step: Step, rid: Rid, r: Record)
    requires Enabled(s, step) && rid in Next(s, step).rpcs && r in Next(s, step).rpcs[rid].recs
    ensures Around(s, r)
  {
    hide Stamp, Plan, Gap, Around, LogOf;
    if rid in s.rpcs && r in s.rpcs[rid].recs {
      AroundInRpc(s, rid, r);
    } else if step.Send? || step.DiskFail? {
      AroundInCall(s, step.t, r);
    }
  }

  lemma PlanSends(batch: bool, missing: seq<Record>, recs: seq<Record>, i: nat, r: Record)
    requires i < |Plan(batch, missing, recs)| && r in Plan(batch, missing, recs)[i]
    ensures r in missing || r in recs
  {
  }

  lemma CallsSayNothingNew(s: State, step: Step, u: Tid, r: Record)
    requires Enabled(s, step) && u in Next(s, step).calls && Holds(Next(s, step).calls[u], r)
    ensures Around(s, r) || (step.Reserve? && r in NewRecs(s, step.t, step.ts))
  {
    hide Stamp, Plan, Around, LogOf;
    var s' := Next(s, step);
    if u in s.calls && Holds(s.calls[u], r) {
      AroundInCall(s, u, r);
    } else if step.Ask? {
      var c := s.calls[step.t];
      var lead := LogOf(s, c.broker);
      var missing := Gap(lead, |LogOf(s, c.follower.value)|, c.recs[0].offset);
      var i :| 0 <= i < |s'.calls[u].phase.todo| && r in s'.calls[u].phase.todo[i];
      PlanSends(c.batch, missing, c.recs, i, r);
      assert r in missing ==> r in lead;
      AroundInLog(s, c.broker, r);
    }
  }

  lemma NothingNew(s: State, step: Step, r: Record)
    requires Enabled(s, step) && Around(Next(s, step), r)
    ensures Around(s, r) || (step.Reserve? && r in NewRecs(s, step.t, step.ts))
  {
    hide Next, Enabled, Holds, LogOf;
    var s' := Next(s, step);
    if b: Id :| r in LogOf(s', b) {
      LogsSayNothingNew(s, step, b, r);
    } else if rid :| rid in s'.rpcs && r in s'.rpcs[rid].recs {
      RpcsSayNothingNew(s, step, rid, r);
    } else {
      var t :| t in s'.calls && Holds(s'.calls[t], r);
      CallsSayNothingNew(s, step, t, r);
    }
  }

  lemma AgreementKept(g: Guards, s: State, step: Step)
    requires g.noReuse && Agreement(s) && Enabled(s, step) && Prudent(g, s, step)
    ensures Agreement(Next(s, step))
  {
    hide Next, Around;
    var s' := Next(s, step);
    forall q, r | Around(s', q) && Around(s', r) && q.offset == r.offset
      ensures q == r
    {
      NothingNew(s, step, q);
      NothingNew(s, step, r);
      if step.Reserve? {
        var recs := NewRecs(s, step.t, step.ts);
        assert Contiguous(|LogOf(s, s.calls[step.t].broker)|, recs);
      }
    }
  }

  lemma ReserveKeepsAround(s: State, t: Tid, ts: int, r: Record)
    requires Enabled(s, Reserve(t, ts)) && Around(s, r)
    ensures Around(Next(s, Reserve(t, ts)), r)
  {
    hide Stamp, Around;
    var s' := Next(s, Reserve(t, ts));
    assert Around(s, r) ==>
        || (exists b: Id :: r in LogOf(s, b))
        || (exists rid :: rid in s.rpcs && r in s.rpcs[rid].recs)
        || (exists t :: t in s.calls && Holds(s.calls[t], r)) by {
      AroundSomewhere(s, r);
    }
    if b: Id :| r in LogOf(s, b) {
      assert LogOf(s', b) == LogOf(s, b);
      AroundInLog(s', b, r);
    } else if rid :| rid in s.rpcs && r in s.rpcs[rid].recs {
      AroundInRpc(s', rid, r);
    } else {
      var u :| u in s.calls && Holds(s.calls[u], r);
      AroundInCall(s', u, r);
    }
  }

  lemma AroundSomewhere(s: State, r: Record)
    requires Around(s, r)
    ensures || (exists b: Id :: r in LogOf(s, b))
            || (exists rid :: rid in s.rpcs && r in s.rpcs[rid].recs)
            || (exists t :: t in s.calls && Holds(s.calls[t], r))
  {
  }

  /** A reservation that gives an offset still around to another record ends the agreement. */
  lemma AgreementNeedsNoReuse(s: State, t: Tid, ts: int)
    requires Enabled(s, Reserve(t, ts)) && Agreement(Next(s, Reserve(t, ts)))
    ensures NoReuse(s, NewRecs(s, t, ts))
  {
    hide Around, Stamp;
    var recs, s' := NewRecs(s, t, ts), Next(s, Reserve(t, ts));
    forall q, i | 0 <= i < |recs| && Around(s, q) && q.offset == recs[i].offset
      ensures q == recs[i]
    {
      ReserveKeepsAround(s, t, ts, q);
      AroundInCall(s', t, recs[i]);
    }
  }

  /** A step keeps the agreement exactly when it is not a reservation that reuses an offset. */
  lemma AgreementStepIff(s: State, step: Step)
    requires Agreement(s) && Enabled(s, step)
    ensures Agreement(Next(s, step)) <==> Prudent(REUSE_FREE, s, step)
  {
    if Prudent(REUSE_FREE, s, step) {
      AgreementKept(REUSE_FREE, s, step);
    } else if Agreement(Next(s, step)) {
      AgreementNeedsNoReuse(s, step.t, step.ts);
    }
  }

  /** Agreement in every state of the run. */
  ghost predicate AlwaysAgrees(s: State, steps: seq<Step>)
    requires Possible(s, steps)
    decreases |steps|
  {
    Agreement(s) && (steps == [] || AlwaysAgrees(Next(s, steps[0]), steps[1..]))
  }

  lemma {:induction false} AgreementRunIff(s: State, steps: seq<Step>)
    requires Agreement(s) && Possible(s, steps)
    ensures AlwaysAgrees(s, steps) <==> PrudentRun(REUSE_FREE, s, steps)
    decreases |steps|
  {
    hide Agreement, Enabled, Next, Prudent;
    if steps != [] {
      AgreementStepIff(s, steps[0]);
      if Agreement(Next(s, steps[0])) {
        AgreementRunIff(Next(s, steps[0]), steps[1..]);
      }
    }
  }

  // ----- commits -----

  /** A committed record lies in the log of the broker that answered, at its offset. */
  ghost predicate Stored(s: State) {
    forall i, r :: 0 <= i < |s.commits| && r in s.commits[i].recs ==> At(s, s.commits[i].broker, r)
  }

  ghost predicate At(s: State, b: Id, r: Record) {
    r.offset < |LogOf(s, b)| && LogOf(s, b)[r.offset] == r
  }

  /** The assigned leader and every holder of the last commit have entries up to the end of every commit. */
  ghost predicate LeaderCovers(s: State) {
    s.commits != [] ==>
      && (forall i :: 0 <= i < |s.commits| ==> End(s.commits[i].recs) <= End(Top(s.commits).recs))
      && End(Top(s.commits).recs) <= |LogOf(s, s.leader)|
      && (forall b: Id :: HoldsLast(s.commits, b) ==> End(Top(s.commits).recs) <= |LogOf(s, b)|)
  }

  lemma EntryIsAround(s: State, b: Id, k: nat)
    requires k < |LogOf(s, b)|
    ensures Around(s, LogOf(s, b)[k])
  {
    AroundInLog(s, b, LogOf(s, b)[k]);
  }

  /** A record that has been handled by its write's local append is in that log, since only it has that offset. */
  lemma FinishedIsAt(s: State, t: Tid, r: Record)
    requires Inv(s) && Agreement(s) && t in s.calls && r in s.calls[t].recs
    requires s.calls[t].phase.Writing? && s.calls[t].phase.i == |s.calls[t].recs|
    ensures At(s, s.calls[t].broker, r)
  {
    var c := s.calls[t];
    assert CallOk(s, t, c);
    hide LogOf, Around;
    var j :| 0 <= j < |c.recs| && c.recs[j] == r;
    assert r.offset < |LogOf(s, c.broker)|;
    EntryIsAround(s, c.broker, r.offset);
    AroundInCall(s, t, r);
    assert Dense(LogOf(s, c.broker));
  }

  lemma StoredKept(s: State, step: Step)
    requires Inv(s) && Agreement(s) && Stored(s) && Enabled(s, step)
    ensures Stored(Next(s, step))
  {
    hide Next, Enabled, LogOf, Inv, Agreement, At;
    AllLogsGrow(s, step);
    CommitsView(s, step);
    var s' := Next(s, step);
    if s'.commits != s.commits {
      FinishStores(s, step.t);
    }
    forall i, r | 0 <= i < |s'.commits| && r in s'.commits[i].recs
      ensures At(s', s'.commits[i].broker, r)
    {
      assert i < |s.commits| ==> s'.commits[i] == s.commits[i];
      AtGrows(s, s', s'.commits[i].broker, r);
    }
  }

  lemma AtGrows(s: State, s': State, b: Id, r: Record)
    requires At(s, b, r) && LogOf(s, b) <= LogOf(s', b)
    ensures At(s', b, r)
  {
    hide LogOf;
  }

  lemma FinishStores(s: State, t: Tid)
    requires Inv(s) && Agreement(s) && t in s.calls
    requires s.calls[t].phase.Writing? && s.calls[t].phase.i == |s.calls[t].recs|
    ensures forall r :: r in s.calls[t].recs ==> At(s, s.calls[t].broker, r)
  {
    hide Inv, Agreement, At;
    forall r | r in s.calls[t].recs
      ensures At(s, s.calls[t].broker, r)
    {
      FinishedIsAt(s, t, r);
    }
  }

  lemma LeaderView(s: State, step: Step)
    requires Enabled(s, step)
    ensures Next(s, step).leader == if step.Reassign? then step.leader else s.leader
  {
    hide LogOf, Stamp, Plan, Gap, Accept;
  }

  lemma TopOfSnoc(commits: seq<Commit>, c: Commit)
    ensures Top(commits + [c]) == if commits != [] && End(c.recs) < End(Top(commits).recs) then Top(commits) else c
  {
    assert (commits + [c])[..|commits|] == commits;
  }

  lemma LeaderCoversKept(s: State, step: Step)
    requires Inv(s) && LeaderCovers(s) && Enabled(s, step) && Prudent(ALL, s, step)
    ensures LeaderCovers(Next(s, step))
  {
    AllLogsGrow(s, step);
    CommitsView(s, step);
    LeaderView(s, step);
    if step.Finish? {
      FinishCovers(s, step.t);
    } else {
      hide Next, LogOf, Around, Inv, Top;
      assert s.commits != [] ==> End(Top(s.commits).recs) <= |LogOf(s, Next(s, step).leader)|;
    }
  }

  lemma FinishCovers(s: State, t: Tid)
    requires CallsOk(s) && LeaderCovers(s) && Enabled(s, Finish(t)) && Prudent(ALL, s, Finish(t))
    ensures LeaderCovers(Next(s, Finish(t)))
  {
    hide Stamp, Plan, Gap, Accept, Around, Top;
    var c := s.calls[t];
    var s' := Next(s, Finish(t));
    assert CallOk(s, t, c);
    TopOfSnoc(s.commits, Commit(c.broker, c.follower, c.recs));
    assert forall b: Id :: LogOf(s', b) == LogOf(s, b);
    assert End(c.recs) <= |LogOf(s, s.leader)|;
    hide Next, LogOf, CallsOk, Contiguous;
  }

  // ----- whole runs -----

  ghost predicate Safe(s: State) {
    Inv(s) && Agreement(s) && Stored(s) && LeaderCovers(s)
  }

  lemma {:induction false} PrudentRunKeeps(s: State, steps: seq<Step>)
    requires Safe(s) && Possible(s, steps) && PrudentRun(ALL, s, steps)
    ensures Safe(Run(s, steps))
    decreases |steps|
  {
    hide Inv, Agreement, Stored, LeaderCovers, Enabled, Next, Prudent;
    if steps != [] {
      StepKeeps(s, steps[0]);
      AgreementKept(ALL, s, steps[0]);
      StoredKept(s, steps[0]);
      LeaderCoversKept(s, steps[0]);
      PrudentRunKeeps(Next(s, steps[0]), steps[1..]);
    }
  }

  /** Every committed record is in the assigned leader's log, at its offset, with its key, value and timestamp. */
  ghost predicate Lossless(s: State) {
    forall i, r :: 0 <= i < |s.commits| && r in s.commits[i].recs ==> At(s, s.leader, r)
  }

  // ----- when a run is lossless -----

  /** Every commit ends below the end of b's log. */
  ghost predicate LongEnough(s: State, b: Id) {
    forall i :: 0 <= i < |s.commits| ==> End(s.commits[i].recs) <= |LogOf(s, b)|
  }

  /** While records agree, it takes no look at contents to see that nothing is lost: the leader's log only has
      to be long enough. */
  lemma LosslessIffLongEnough(s: State)
    requires Inv(s) && Agreement(s) && Stored(s)
    ensures Lossless(s) <==> LongEnough(s, s.leader)
  {
    hide Around, LogOf;
    if LongEnough(s, s.leader) {
      forall i, r | 0 <= i < |s.commits| && r in s.commits[i].recs
        ensures At(s, s.leader, r)
      {
        CommitReaches(s, i, r);
      }
    }
    if Lossless(s) {
      forall i | 0 <= i < |s.commits|
        ensures End(s.commits[i].recs) <= |LogOf(s, s.leader)|
      {
        var recs := s.commits[i].recs;
        assert CommitOk(s, s.commits[i]);
        assert At(s, s.leader, recs[|recs| - 1]);
      }
    }
  }

  lemma CommitReaches(s: State, i: nat, r: Record)
    requires Inv(s) && Agreement(s) && Stored(s)
    requires i < |s.commits| && r in s.commits[i].recs && End(s.commits[i].recs) <= |LogOf(s, s.leader)|
    ensures At(s, s.leader, r)
  {
    hide Around, LogOf;
    var c := s.commits[i];
    assert At(s, c.broker, r) && CommitOk(s, c);
    var j :| 0 <= j < |c.recs| && c.recs[j] == r;
    assert r.offset < End(c.recs);
    EntryIsAround(s, s.leader, r.offset);
    EntryIsAround(s, c.broker, r.offset);
    assert Dense(LogOf(s, s.leader));
  }

  /** What can be checked before a step: a write is answered as committed only if the assigned leader's log reaches
      its end, and a broker is assigned only if its log reaches the end of every commit. */
  ghost predicate Careful(s: State, step: Step)
    requires Enabled(s, step)
  {
    match step
    case Finish(t) => End(s.calls[t].recs) <= |LogOf(s, s.leader)|
    case Reassign(l) => LongEnough(s, l)
    case _ => true
  }

  lemma StepLengths(s: State, step: Step)
    requires Enabled(s, step) && LongEnough(s, s.leader)
    ensures LongEnough(Next(s, step), Next(s, step).leader) <==> Careful(s, step)
  {
    AllLogsGrow(s, step);
    CommitsView(s, step);
    LeaderView(s, step);
    var s' := Next(s, step);
    if step.Finish? {
      assert s'.commits[|s.commits|].recs == s.calls[step.t].recs;
      assert LogOf(s', s.leader) == LogOf(s, s.leader);
    } else if step.Reassign? {
      assert LogOf(s', step.leader) == LogOf(s, step.leader);
    }
    hide Next, Enabled, LogOf;
    if Careful(s, step) {
      forall i | 0 <= i < |s'.commits|
        ensures End(s'.commits[i].recs) <= |LogOf(s', s'.leader)|
      {
        assert i < |s.commits| ==> s'.commits[i] == s.commits[i];
      }
    }
    if LongEnough(s', s'.leader) && step.Reassign? {
      assert s'.commits == s.commits;
    }
  }

  /** A step loses a committed record exactly when it is not careful. */
  lemma LosslessStepIff(s: State, step: Step)
    requires Inv(s) && Agreement(s) && Stored(s) && Lossless(s)
    requires Enabled(s, step) && Prudent(REUSE_FREE, s, step)
    ensures Lossless(Next(s, step)) <==> Careful(s, step)
  {
    LosslessIffLongEnough(s);
    StepKeeps(s, step);
    AgreementKept(REUSE_FREE, s, step);
    StoredKept(s, step);
    LosslessIffLongEnough(Next(s, step));
    StepLengths(s, step);
  }

  ghost predicate AlwaysLossless(s: State, steps: seq<Step>)
    requires Possible(s, steps)
    decreases |steps|
  {
    Lossless(s) && (steps == [] || AlwaysLossless(Next(s, steps[0]), steps[1..]))
  }

  ghost predicate CarefulRun(s: State, steps: seq<Step>)
    requires Possible(s, steps)
    decreases |steps|
  {
    steps == [] || (Careful(s, steps[0]) && CarefulRun(Next(s, steps[0]), steps[1..]))
  }

  lemma {:induction false} LosslessRunIff(s: State, steps: seq<Step>)
    requires Inv(s) && Agreement(s) && Stored(s) && Lossless(s)
    requires Possible(s, steps) && PrudentRun(REUSE_FREE, s, steps)
    ensures AlwaysLossless(s, steps) <==> CarefulRun(s, steps)
    decreases |steps|
  {
    hide Inv, Agreement, Stored, Lossless, Enabled, Next, Prudent, Careful;
    if steps != [] {
      LosslessStepIff(s, steps[0]);
      if Careful(s, steps[0]) {
        StepKeeps(s, steps[0]);
        AgreementKept(REUSE_FREE, s, steps[0]);
        StoredKept(s, steps[0]);
        LosslessRunIff(Next(s, steps[0]), steps[1..]);
      }
    }
  }

  /** Zero loss, exactly: a run from the empty cluster in which no offset is reused has every committed record in the
      assigned leader's log at all times if and only if each of its steps is careful. */
  lemma ZeroLossIffCareful(leader: Id, steps: seq<Step>)
    requires Possible(Initial(leader), steps) && PrudentRun(REUSE_FREE, Initial(leader), steps)
    ensures AlwaysLossless(Initial(leader), steps) <==> CarefulRun(Initial(leader), steps)
  {
    LosslessRunIff(Initial(leader), steps);
  }

  // ----- with reuse -----

  /** Careful says all there is to say while records agree. Without that, its test needs a look at contents, which comes
      close to saying losslessness of each step: the assigned leader's log has the records of the write that is
      answered, a new leader's log has what the old one's has at every committed offset. */
  ghost predicate Compared(s: State, step: Step)
    requires Enabled(s, step)
  {
    match step
    case Finish(t) => forall r :: r in s.calls[t].recs ==> At(s, s.leader, r)
    case Reassign(l) =>
      forall i, r :: 0 <= i < |s.commits| && r in s.commits[i].recs ==>
        && r.offset < |LogOf(s, l)| && r.offset < |LogOf(s, s.leader)|
        && LogOf(s, l)[r.offset] == LogOf(s, s.leader)[r.offset]
    case _ => true
  }

  lemma ComparedKeeps(s: State, step: Step)
    requires Enabled(s, step) && Lossless(s) && Compared(s, step)
    ensures Lossless(Next(s, step))
  {
    AllLogsGrow(s, step);
    CommitsView(s, step);
    LeaderView(s, step);
    hide Next, Enabled, LogOf;
    var s' := Next(s, step);
    forall i, r | 0 <= i < |s'.commits| && r in s'.commits[i].recs
      ensures At(s', s'.leader, r)
    {
      if i < |s.commits| {
        assert At(s, s.leader, r);
      } else {
        assert At(s, s.leader, r) && s'.leader == s.leader;
      }
    }
  }

  lemma LosslessNeedsCompared(s: State, step: Step)
    requires Enabled(s, step) && Lossless(s) && Lossless(Next(s, step))
    ensures Compared(s, step)
  {
    LeaderView(s, step);
    var s' := Next(s, step);
    if step.Finish? {
      forall r | r in s.calls[step.t].recs
        ensures At(s, s.leader, r)
      {
        assert s'.commits[|s.commits|].recs == s.calls[step.t].recs;
        assert At(s', s.leader, r) && LogOf(s', s.leader) == LogOf(s, s.leader);
      }
    }
    if step.Reassign? {
      forall i, r | 0 <= i < |s.commits| && r in s.commits[i].recs
        ensures r.offset < |LogOf(s, step.leader)| && r.offset < |LogOf(s, s.leader)|
        ensures LogOf(s, step.leader)[r.offset] == LogOf(s, s.leader)[r.offset]
      {
        assert s'.commits == s.commits && At(s, s.leader, r) && At(s', step.leader, r);
        assert LogOf(s', step.leader) == LogOf(s, step.leader);
      }
    }
  }

  ghost predicate ComparedRun(s: State, steps: seq<Step>)
    requires Possible(s, steps)
    decreases |steps|
  {
    steps == [] || (Compared(s, steps[0]) && ComparedRun(Next(s, steps[0]), steps[1..]))
  }

  lemma {:induction false} ComparedRunIff(s: State, steps: seq<Step>)
    requires Lossless(s) && Possible(s, steps)
    ensures AlwaysLossless(s, steps) <==> ComparedRun(s, steps)
    decreases |steps|
  {
    hide Lossless, Enabled, Next, Compared;
    if steps != [] {
      if Compared(s, steps[0]) {
        ComparedKeeps(s, steps[0]);
        ComparedRunIff(Next(s, steps[0]), steps[1..]);
      } else if Lossless(Next(s, steps[0])) {
        LosslessNeedsCompared(s, steps[0]);
      }
    }
  }

  /** With no assumption on the run at all: every committed record is in the assigned leader's log at all times if and
      only if each step stands the comparison of contents. */
  lemma ZeroLossIffCompared(leader: Id, steps: seq<Step>)
    requires Possible(Initial(leader), steps)
    ensures AlwaysLossless(Initial(leader), steps) <==> ComparedRun(Initial(leader), steps)
  {
    ComparedRunIff(Initial(leader), steps);
  }

  /** Everything around agrees at all times of a run if and only if no reservation of the run reuses an offset. */
  lemma AgreementIffReuseFree(leader: Id, steps: seq<Step>)
    requires Possible(Initial(leader), steps)
    ensures AlwaysAgrees(Initial(leader), steps) <==> PrudentRun(REUSE_FREE, Initial(leader), steps)
  {
    AgreementRunIff(Initial(leader), steps);
  }

  /** Committing at or through the assigned leader and promoting holders of the last commit is careful. */
  lemma PrudentIsCareful(s: State, step: Step)
    requires Inv(s) && LeaderCovers(s) && Enabled(s, step) && Prudent(ALL, s, step)
    ensures Careful(s, step)
  {
    hide LogOf, Around, Top;
    if step.Finish? {
      assert CallOk(s, step.t, s.calls[step.t]);
    }
  }

  lemma {:induction false} PrudentRunIsCareful(s: State, steps: seq<Step>)
    requires Safe(s) && Possible(s, steps) && PrudentRun(ALL, s, steps)
    ensures CarefulRun(s, steps)
    decreases |steps|
  {
    hide Inv, Agreement, Stored, LeaderCovers, Enabled, Next, Prudent, Careful;
    if steps != [] {
      var s', one := Next(s, steps[0]), steps[0];
      PrudentIsCareful(s, one);
      StepKeeps(s, one);
      AgreementKept(ALL, s, one);
      StoredKept(s, one);
      LeaderCoversKept(s, one);
      PrudentRunIsCareful(s', steps[1..]);
    }
  }

  /** Zero loss: no prudent run loses a committed record. */
  lemma NoCommittedRecordIsLost(leader: Id, steps: seq<Step>)
    requires Possible(Initial(leader), steps) && PrudentRun(ALL, Initial(leader), steps)
    ensures Lossless(Run(Initial(leader), steps))
  {
    PrudentRunKeeps(Initial(leader), steps);
    var s := Run(Initial(leader), steps);
    LosslessIffLongEnough(s);
    hide LogOf;
  }

  // ----- replicas -----

  lemma {:induction false} AgreementOverRun(g: Guards, s: State, steps: seq<Step>)
    requires g.noReuse && Inv(s) && Agreement(s) && Possible(s, steps) && PrudentRun(g, s, steps)
    ensures Inv(Run(s, steps)) && Agreement(Run(s, steps))
    decreases |steps|
  {
    hide Inv, Agreement, Enabled, Next, Prudent;
    if steps != [] {
      StepKeeps(s, steps[0]);
      AgreementKept(g, s, steps[0]);
      AgreementOverRun(g, Next(s, steps[0]), steps[1..]);
    }
  }

  /** Any two replicas are prefixes of one another. */
  ghost predicate ReplicasAgree(s: State) {
    forall a: Id, b: Id :: Comparable(LogOf(s, a), LogOf(s, b))
  }

  /** A record is only added where every longer log has it too: the comparison of contents that AppendAt leaves out. */
  ghost predicate Harmless(s: State, step: Step)
    requires Enabled(s, step)
  {
    match Added(s, step)
    case None => true
    case Some(Addition(_, r, _)) => forall d: Id :: r.offset < |LogOf(s, d)| ==> LogOf(s, d)[r.offset] == r
  }

  lemma HarmlessKeeps(s: State, step: Step)
    requires Enabled(s, step) && ReplicasAgree(s) && Harmless(s, step)
    ensures ReplicasAgree(Next(s, step))
  {
    var s' := Next(s, step);
    forall a: Id, b: Id
      ensures Comparable(LogOf(s', a), LogOf(s', b))
    {
      OnlyAdded(s, step, a);
      OnlyAdded(s, step, b);
      hide Next, Enabled, Added, LogOf;
      assert Comparable(LogOf(s, a), LogOf(s, b));
    }
  }

  lemma AgreementNeedsHarmless(s: State, step: Step)
    requires Enabled(s, step) && ReplicasAgree(Next(s, step))
    ensures Harmless(s, step)
  {
    var s' := Next(s, step);
    if Added(s, step).Some? {
      var b, r := Added(s, step).value.broker, Added(s, step).value.rec;
      OnlyAdded(s, step, b);
      forall d: Id | r.offset < |LogOf(s, d)|
        ensures LogOf(s, d)[r.offset] == r
      {
        OnlyAdded(s, step, d);
        hide Next, Enabled, Added, LogOf;
        assert Comparable(LogOf(s', b), LogOf(s', d));
      }
    }
  }

  /** Whatever state a run is in, a step leaves replicas that agree in agreement exactly when it is harmless. */
  lemma ReplicasStepIff(s: State, step: Step)
    requires Enabled(s, step) && ReplicasAgree(s)
    ensures ReplicasAgree(Next(s, step)) <==> Harmless(s, step)
  {
    if Harmless(s, step) {
      HarmlessKeeps(s, step);
    }
    if ReplicasAgree(Next(s, step)) {
      AgreementNeedsHarmless(s, step);
    }
  }

  ghost predicate ReplicasAlwaysAgree(s: State, steps: seq<Step>)
    requires Possible(s, steps)
    decreases |steps|
  {
    ReplicasAgree(s) && (steps == [] || ReplicasAlwaysAgree(Next(s, steps[0]), steps[1..]))
  }

  ghost predicate HarmlessRun(s: State, steps: seq<Step>)
    requires Possible(s, steps)
    decreases |steps|
  {
    steps == [] || (Harmless(s, steps[0]) && HarmlessRun(Next(s, steps[0]), steps[1..]))
  }

  lemma {:induction false} ReplicasRunIff(s: State, steps: seq<Step>)
    requires ReplicasAgree(s) && Possible(s, steps)
    ensures ReplicasAlwaysAgree(s, steps) <==> HarmlessRun(s, steps)
    decreases |steps|
  {
    hide ReplicasAgree, Enabled, Next, Harmless;
    if steps != [] {
      ReplicasStepIff(s, steps[0]);
      if Harmless(s, steps[0]) {
        ReplicasRunIff(Next(s, steps[0]), steps[1..]);
      }
    }
  }

  /** In every run from the empty cluster, whatever its assignments, retries and faults, all replicas are prefixes of one
      another at all times if and only if each step is harmless. */
  lemma ReplicasAgreeIffHarmless(leader: Id, steps: seq<Step>)
    requires Possible(Initial(leader), steps)
    ensures ReplicasAlwaysAgree(Initial(leader), steps) <==> HarmlessRun(Initial(leader), steps)
  {
    ReplicasRunIff(Initial(leader), steps);
  }

  lemma AgreementMakesComparable(s: State)
    requires Inv(s) && Agreement(s)
    ensures ReplicasAgree(s)
  {
    hide Around, LogOf;
    forall a: Id, b: Id
      ensures Comparable(LogOf(s, a), LogOf(s, b))
    {
      assert Dense(LogOf(s, a)) && Dense(LogOf(s, b));
      forall k | 0 <= k < |LogOf(s, a)| && k < |LogOf(s, b)|
        ensures LogOf(s, a)[k] == LogOf(s, b)[k]
      {
        EntryIsAround(s, a, k);
        EntryIsAround(s, b, k);
      }
      ComparableAgree(LogOf(s, a), LogOf(s, b));
    }
  }

  /** A run in which no reservation reuses an offset has only harmless steps. */
  lemma {:induction false} ReuseFreeIsHarmless(s: State, steps: seq<Step>)
    requires Inv(s) && Agreement(s) && Possible(s, steps) && PrudentRun(REUSE_FREE, s, steps)
    ensures HarmlessRun(s, steps)
    decreases |steps|
  {
    hide Inv, Agreement, ReplicasAgree, Enabled, Next, Prudent, Harmless;
    if steps != [] {
      AgreementMakesComparable(s);
      StepKeeps(s, steps[0]);
      AgreementKept(REUSE_FREE, s, steps[0]);
      AgreementMakesComparable(Next(s, steps[0]));
      ReplicasStepIff(s, steps[0]);
      ReuseFreeIsHarmless(Next(s, steps[0]), steps[1..]);
    }
  }

  // ----- each hypothesis is needed -----

  /** A possible run that obeys the guards g leads from one state to another. */
  ghost predicate Reaches(g: Guards, s: State, steps: seq<Step>, s': State) {
    Possible(s, steps) && PrudentRun(g, s, steps) && Run(s, steps) == s'
  }

  lemma {:induction false} OneMore(g: Guards, s: State, steps: seq<Step>, s': State, x: Step)
    requires Reaches(g, s, steps, s') && Enabled(s', x) && Prudent(g, s', x)
    ensures Reaches(g, s, steps + [x], Next(s', x))
    decreases |steps|
  {
    hide Enabled, Next, Prudent;
    var more := steps + [x];
    if steps == [] {
      assert more[1..] == [];
      assert Possible(Next(s, x), []) && PrudentRun(g, Next(s, x), []) && Run(Next(s, x), []) == Next(s, x);
    } else {
      OneMore(g, Next(s, steps[0]), steps[1..], s', x);
      assert more[1..] == steps[1..] + [x];
    }
  }

  lemma NoneAround(s: State, recs: seq<Record>)
    requires s.logs == map[] && s.rpcs == map[] && forall t :: t in s.calls ==> s.calls[t].phase.Waiting?
    ensures NoReuse(s, recs)
  {
  }

  /** Broker 0 has committed r on its own. */
  function AfterLoneWrite(leader: Id, r: Record): State {
    Initial(leader).(logs := map[0 := [r]], origins := map[0 := [Local(None)]], commits := [Commit(0, None, [r])])
  }

  lemma LoneReserve(g: Guards, leader: Id, p: seq<Payload>, r: Record) returns (steps: seq<Step>)
    requires |p| == 1 && Stamp(0, p, 0) == [r]
    ensures Reaches(g, Initial(leader), steps,
                    Initial(leader).(locks := map[0 := 0], calls := map[0 := Call(0, None, false, p, [r], Writing(0))]))
  {
    var s0 := Initial(leader);
    var call := Call(0, None, false, p, [], Waiting);
    var s1 := s0.(calls := map[0 := call]);
    OneMore(g, s0, [], s0, Start(0, 0, None, false, p));
    hide Possible, PrudentRun, Run, Stamp;
    assert Next(s0, Start(0, 0, None, false, p)) == s1;
    NoneAround(s1, [r]);
    hide NoReuse;
    steps := [] + [Start(0, 0, None, false, p)];
    OneMore(g, s0, steps, s1, Reserve(0, 0));
    steps := steps + [Reserve(0, 0)];
  }

  lemma LoneStore(g: Guards, leader: Id, p: seq<Payload>, r: Record) returns (steps: seq<Step>)
    requires |p| == 1 && Stamp(0, p, 0) == [r] && r.offset == 0
    ensures Reaches(g, Initial(leader), steps,
                    Initial(leader).(logs := map[0 := [r]], origins := map[0 := [Local(None)]], locks := map[0 := 0],
                                     calls := map[0 := Call(0, None, false, p, [r], Writing(1))]))
  {
    var s0 := Initial(leader);
    var s2 := s0.(locks := map[0 := 0], calls := map[0 := Call(0, None, false, p, [r], Writing(0))]);
    steps := LoneReserve(g, leader, p, r);
    hide Possible, PrudentRun, Run, Stamp, NoReuse, Plan, Gap, Around;
    OneMore(g, s0, steps, s2, Store(0));
    assert LogOf(s2, 0) + [r] == [r] && OriginsOf(s2, 0) + [Local(None)] == [Local(None)];
    steps := steps + [Store(0)];
  }

  lemma LoneWrite(g: Guards, leader: Id, p: seq<Payload>, r: Record) returns (steps: seq<Step>)
    requires |p| == 1 && Stamp(0, p, 0) == [r] && r.offset == 0
    requires leader == 0 || !g.throughLeader
    ensures Reaches(g, Initial(leader), steps, AfterLoneWrite(leader, r))
  {
    var s3 := Initial(leader).(logs := map[0 := [r]], origins := map[0 := [Local(None)]], locks := map[0 := 0],
                               calls := map[0 := Call(0, None, false, p, [r], Writing(1))]);
    steps := LoneStore(g, leader, p, r);
    hide Possible, PrudentRun, Run, Stamp, NoReuse, Plan, Gap, Around;
    OneMore(g, Initial(leader), steps, s3, Finish(0));
    assert s3.commits + [Commit(0, None, [r])] == [Commit(0, None, [r])];
    assert Next(s3, Finish(0)) == AfterLoneWrite(leader, r);
    steps := steps + [Finish(0)];
  }

  /** One write without follower at broker 0 is committed; the broker assigned in the end is 1. */
  lemma CommitOutOfReach(g: Guards) returns (leader: Id, steps: seq<Step>)
    requires !g.throughLeader || !g.safePromotion
    ensures Possible(Initial(leader), steps) && PrudentRun(g, Initial(leader), steps)
    ensures !Lossless(Run(Initial(leader), steps))
  {
    leader := if g.throughLeader then 0 else 1;
    var p := [Payload([], [])];
    var r := Record(0, [], [], 0);
    assert Stamp(0, p, 0) == [r];
    steps := LoneWrite(g, leader, p, r);
    if g.throughLeader {
      OneMore(g, Initial(leader), steps, AfterLoneWrite(leader, r), Reassign(1));
      steps := steps + [Reassign(1)];
    }
    hide Possible, PrudentRun, Run, NoReuse, Plan, Gap, Stamp, Around;
    var s := Run(Initial(leader), steps);
    assert s.leader == 1 && s.commits == [Commit(0, None, [r])] && LogOf(s, 1) == [];
    assert r in s.commits[0].recs && !At(s, s.leader, r);
  }

  /** The follower keeps the record of a write whose ack was lost; the leader gives the same offset to the next
      write, gets its ack, and the follower is promoted. */
  lemma ReusedOffset(g: Guards) returns (leader: Id, steps: seq<Step>)
    requires !g.noReuse
    ensures Possible(Initial(leader), steps) && PrudentRun(g, Initial(leader), steps)
    ensures !Lossless(Run(Initial(leader), steps)) && !ReplicasAgree(Run(Initial(leader), steps))
  {
    leader := 0;
    var p := [Payload([], [])];
    var q, r := Record(0, [], [], 0), Record(0, [], [], 1);
    assert Stamp(0, p, 0) == [q] && Stamp(0, p, 1) == [r];
    var half := LostAck(g, p, q);
    steps := SecondWrite(g, p, q, r, half);
    hide Possible, PrudentRun, Run;
    var s := Run(Initial(0), steps);
    ComparableAgree(LogOf(s, 0), LogOf(s, 1));
    assert LogOf(s, 0)[0] != LogOf(s, 1)[0];
    assert r in s.commits[0].recs && !At(s, s.leader, r);
  }

  /** Broker 1 holds q, which broker 0 sent and gave up on. */
  function AfterLostAck(q: Record): State {
    Initial(0).(logs := map[1 := [q]], origins := map[1 := [Received(0)]])
  }

  lemma LostAck(g: Guards, p: seq<Payload>, q: Record) returns (steps: seq<Step>)
    requires !g.noReuse && |p| == 1 && Stamp(0, p, 0) == [q] && q.offset == 0
    ensures Reaches(g, Initial(0), steps, AfterLostAck(q))
  {
    var s0 := Initial(0);
    steps := SendTo1(g, s0, s0, [], p, q, 0);
    hide Stamp, Possible, PrudentRun, Run, NoReuse, Gap, Around;
    var sending := Call(0, Some(1), false, p, [q], Sending([[q]]));
    var s4 := s0.(locks := map[0 := 0], calls := map[0 := sending], rpcs := map[0 := Rpc(1, [q], 0, Received(0))]);
    OneMore(g, s0, steps, s4, Apply(0));
    var s5 := s4.(logs := map[1 := [q]], origins := map[1 := [Received(0)]], rpcs := map[0 := Rpc(1, [q], 1, Received(0))]);
    assert LogOf(s4, 1) + [q] == [q] && OriginsOf(s4, 1) + [Received(0)] == [Received(0)];
    assert Next(s4, Apply(0)) == s5;
    steps := DropAck(g, p, q, steps + [Apply(0)], s5);
  }

  lemma DropAck(g: Guards, p: seq<Payload>, q: Record, sofar: seq<Step>, s5: State) returns (steps: seq<Step>)
    requires s5 == AfterLostAck(q).(locks := map[0 := 0], rpcs := map[0 := Rpc(1, [q], 1, Received(0))],
                                    calls := map[0 := Call(0, Some(1), false, p, [q], Sending([[q]]))])
    requires Reaches(g, Initial(0), sofar, s5)
    ensures Reaches(g, Initial(0), steps, AfterLostAck(q))
  {
    hide Possible, PrudentRun, Run, NoReuse, Plan, Gap, Stamp, Around;
    var s6 := s5.(rpcs := map[]);
    OneMore(g, Initial(0), sofar, s5, Drop(0));
    assert Next(s5, Drop(0)) == s6;
    steps := sofar + [Drop(0)];
    OneMore(g, Initial(0), steps, s6, GiveUp(0));
    assert Next(s6, GiveUp(0)) == AfterLostAck(q);
    steps := steps + [GiveUp(0)];
  }

  /** Broker 0, whose log is empty, sends its next record to broker 1. */
  lemma SendTo1(g: Guards, start: State, s0: State, sofar: seq<Step>, p: seq<Payload>, r: Record, ts: int)
    returns (steps: seq<Step>)
    requires !g.noReuse && |p| == 1 && Stamp(0, p, ts) == [r] && r.offset == 0
    requires s0.calls == map[] && s0.locks == map[] && s0.rpcs == map[] && LogOf(s0, 0) == []
    requires Reaches(g, start, sofar, s0)
    ensures Reaches(g, start, steps,
                    s0.(locks := map[0 := 0], calls := map[0 := Call(0, Some(1), false, p, [r], Sending([[r]]))],
                        rpcs := map[0 := Rpc(1, [r], 0, Received(0))]))
  {
    hide Stamp, Possible, PrudentRun, Run, NoReuse, Around, Plan;
    steps := ReserveTo1(g, start, s0, sofar, p, r, ts);
    var call := Call(0, Some(1), false, p, [r], Asking);
    var s2 := s0.(calls := map[0 := call], locks := map[0 := 0]);
    var s3 := s2.(calls := map[0 := call.(phase := Sending([[r]]))]);
    OneMore(g, start, steps, s2, Ask(0));
    OnlyTheNew([r]);
    assert Next(s2, Ask(0)) == s3;
    steps := steps + [Ask(0)];
    OneMore(g, start, steps, s3, Send(0, 0));
    steps := steps + [Send(0, 0)];
  }

  lemma OnlyTheNew(recs: seq<Record>)
    ensures Plan(false, [], recs) == [recs]
  {
  }

  lemma ReserveTo1(g: Guards, start: State, s0: State, sofar: seq<Step>, p: seq<Payload>, r: Record, ts: int)
    returns (steps: seq<Step>)
    requires !g.noReuse && |p| == 1 && Stamp(0, p, ts) == [r]
    requires s0.calls == map[] && s0.locks == map[] && LogOf(s0, 0) == []
    requires Reaches(g, start, sofar, s0)
    ensures Reaches(g, start, steps,
                    s0.(locks := map[0 := 0], calls := map[0 := Call(0, Some(1), false, p, [r], Asking)]))
  {
    hide Stamp, Possible, PrudentRun, Run, NoReuse, Around, Plan, Gap;
    var call := Call(0, Some(1), false, p, [], Waiting);
    var s1 := s0.(calls := map[0 := call]);
    OneMore(g, start, sofar, s0, Start(0, 0, Some(1), false, p));
    assert Next(s0, Start(0, 0, Some(1), false, p)) == s1;
    steps := sofar + [Start(0, 0, Some(1), false, p)];
    OneMore(g, start, steps, s1, Reserve(0, ts));
    assert Next(s1, Reserve(0, ts)) == s1.(calls := map[0 := call.(recs := [r], phase := Asking)], locks := map[0 := 0]);
    steps := steps + [Reserve(0, ts)];
  }

  lemma SecondWrite(g: Guards, p: seq<Payload>, q: Record, r: Record, half: seq<Step>) returns (steps: seq<Step>)
    requires !g.noReuse && |p| == 1 && Stamp(0, p, 1) == [r] && q.offset == r.offset == 0
    requires Reaches(g, Initial(0), half, AfterLostAck(q))
    ensures Possible(Initial(0), steps) && PrudentRun(g, Initial(0), steps)
    ensures var s := Run(Initial(0), steps);
            s.leader == 1 && LogOf(s, 0) == [r] && LogOf(s, 1) == [q] && s.commits == [Commit(0, Some(1), [r])]
  {
    steps := SendTo1(g, Initial(0), AfterLostAck(q), half, p, r, 1);
    hide Stamp, Possible, PrudentRun, Run, NoReuse, Gap, Around;
    var sending := Call(0, Some(1), false, p, [r], Sending([[r]]));
    var s4 := AfterLostAck(q).(locks := map[0 := 0], calls := map[0 := sending], rpcs := map[0 := Rpc(1, [r], 0, Received(0))]);
    var s5 := s4.(rpcs := map[0 := Rpc(1, [r], 1, Received(0))]);
    OneMore(g, Initial(0), steps, s4, Apply(0));
    assert Next(s4, Apply(0)) == s5;
    steps := AckAndPromote(g, s5, p, q, r, steps + [Apply(0)]);
  }

  lemma AckAndPromote(g: Guards, s5: State, p: seq<Payload>, q: Record, r: Record, sofar: seq<Step>)
    returns (steps: seq<Step>)
    requires q.offset == r.offset == 0
    requires s5 == AfterLostAck(q).(rpcs := map[0 := Rpc(1, [r], 1, Received(0))], locks := map[0 := 0],
                                    calls := map[0 := Call(0, Some(1), false, p, [r], Sending([[r]]))])
    requires Reaches(g, Initial(0), sofar, s5)
    ensures Possible(Initial(0), steps) && PrudentRun(g, Initial(0), steps)
    ensures var s := Run(Initial(0), steps);
            s.leader == 1 && LogOf(s, 0) == [r] && LogOf(s, 1) == [q] && s.commits == [Commit(0, Some(1), [r])]
  {
    hide Possible, PrudentRun, Run, NoReuse, Plan, Gap, Stamp, Around;
    var s := Initial(0);
    var call := Call(0, Some(1), false, p, [r], Writing(0));
    var s6 := s5.(rpcs := map[], calls := map[0 := call]);
    OneMore(g, s, sofar, s5, Ack(0, 0));
    assert Next(s5, Ack(0, 0)) == s6;
    steps := StoreAndPromote(g, s6, p, q, r, sofar + [Ack(0, 0)]);
  }

  lemma StoreAndPromote(g: Guards, s6: State, p: seq<Payload>, q: Record, r: Record, sofar: seq<Step>)
    returns (steps: seq<Step>)
    requires q.offset == r.offset == 0
    requires s6 == AfterLostAck(q).(locks := map[0 := 0], calls := map[0 := Call(0, Some(1), false, p, [r], Writing(0))])
    requires Reaches(g, Initial(0), sofar, s6)
    ensures Possible(Initial(0), steps) && PrudentRun(g, Initial(0), steps)
    ensures var s := Run(Initial(0), steps);
            s.leader == 1 && LogOf(s, 0) == [r] && LogOf(s, 1) == [q] && s.commits == [Commit(0, Some(1), [r])]
  {
    hide Possible, PrudentRun, Run, NoReuse, Plan, Gap, Stamp, Around;
    var call := Call(0, Some(1), false, p, [r], Writing(1));
    var s7 := s6.(logs := map[0 := [r], 1 := [q]], origins := map[0 := [Local(Some(1))], 1 := [Received(0)]],
                  calls := map[0 := call]);
    OneMore(g, Initial(0), sofar, s6, Store(0));
    assert LogOf(s6, 0) + [r] == [r] && OriginsOf(s6, 0) + [Local(Some(1))] == [Local(Some(1))];
    assert Next(s6, Store(0)) == s7;
    steps := FinishAndPromote(g, s7, p, q, r, sofar + [Store(0)]);
  }

  lemma FinishAndPromote(g: Guards, s7: State, p: seq<Payload>, q: Record, r: Record, sofar: seq<Step>)
    returns (steps: seq<Step>)
    requires s7 == Initial(0).(logs := map[0 := [r], 1 := [q]], origins := map[0 := [Local(Some(1))], 1 := [Received(0)]],
                               locks := map[0 := 0], calls := map[0 := Call(0, Some(1), false, p, [r], Writing(1))])
    requires Reaches(g, Initial(0), sofar, s7)
    ensures Possible(Initial(0), steps) && PrudentRun(g, Initial(0), steps)
    ensures var s := Run(Initial(0), steps);
            s.leader == 1 && LogOf(s, 0) == [r] && LogOf(s, 1) == [q] && s.commits == [Commit(0, Some(1), [r])]
  {
    hide Possible, PrudentRun, Run, NoReuse, Plan, Gap, Stamp, Around;
    OneMore(g, Initial(0), sofar, s7, Finish(0));
    var s8 := Next(s7, Finish(0));
    assert s8.commits == [Commit(0, Some(1), [r])];
    steps := sofar + [Finish(0)];
    OneMore(g, Initial(0), steps, s8, Reassign(1));
    steps := steps + [Reassign(1)];
  }

  /** Of the three hypotheses, the one on reuse alone decides whether all replicas stay prefixes of one another;
      stale leaders and careless promotions do no harm to that. */
  lemma ReplicasAgreeIffGuarded(g: Guards)
    ensures g.noReuse <==>
            forall leader: Id, steps :: Possible(Initial(leader), steps) && PrudentRun(g, Initial(leader), steps) ==>
              ReplicasAgree(Run(Initial(leader), steps))
  {
    if g.noReuse {
      forall leader: Id, steps | Possible(Initial(leader), steps) && PrudentRun(g, Initial(leader), steps)
        ensures ReplicasAgree(Run(Initial(leader), steps))
      {
        AgreementOverRun(g, Initial(leader), steps);
        AgreementMakesComparable(Run(Initial(leader), steps));
      }
    } else {
      var leader, steps := ReusedOffset(g);
    }
  }

  /** The three hypotheses together protect every run, and no two of them do: with any one of them dropped, some
      run loses a committed record. */
  lemma NoHypothesisCanBeDropped(g: Guards)
    ensures g == ALL <==>
            forall leader: Id, steps :: Possible(Initial(leader), steps) && PrudentRun(g, Initial(leader), steps) ==>
              Lossless(Run(Initial(leader), steps))
  {
    hide Possible, PrudentRun, Run, Lossless;
    if g == ALL {
      forall leader: Id, steps | Possible(Initial(leader), steps) && PrudentRun(ALL, Initial(leader), steps)
        ensures Lossless(Run(Initial(leader), steps))
      {
        NoCommittedRecordIsLost(leader, steps);
      }
    } else if !g.noReuse {
      var leader, steps := ReusedOffset(g);
    } else {
      var leader, steps := CommitOutOfReach(g);
    }
  }
}
