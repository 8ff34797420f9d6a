/** What a write that is answered as committed carries: the payload its client sent, in every run of the protocol. */
module Payloads {
  import opened Records
  import opened Replication
  import opened Protocol
  import opened Coverage

  /** The records a call has reserved offsets for are its payload. */
  ghost predicate Faithful(c: Call) {
    !c.phase.Waiting? ==> c.recs != [] && exists ts :: CarriesPayload(c.recs, c.recs[0].offset, c.payload, ts)
  }

  ghost predicate AllFaithful(s: State) {
    forall t :: t in s.calls ==> Faithful(s.calls[t])
  }

  /** A call keeps its broker, its follower and its payload, and once it has records, those. */
  lemma CallKeeps(s: State, step: Step, t: Tid)
    requires Enabled(s, step) && t in Next(s, step).calls
    ensures var c' := Next(s, step).calls[t];
            if t in s.calls then
              var c := s.calls[t];
              && c'.broker == c.broker && c'.follower == c.follower && c'.payload == c.payload
              && (!c.phase.Waiting? ==> c'.recs == c.recs && !c'.phase.Waiting?)
              && (c.phase.Waiting? && !c'.phase.Waiting? ==> step.Reserve? && step.t == t && c'.recs == NewRecs(s, t, step.ts))
            else
              && step.Start? && step.t == t && c'.phase.Waiting?
              && c'.broker == step.broker && c'.follower == step.follower && c'.payload == step.payload
  {
    hide Stamp, Plan, Gap, LogOf, Accept;
  }

  lemma StepIsFaithful(s: State, step: Step)
    requires CallsOk(s) && AllFaithful(s) && Enabled(s, step)
    ensures AllFaithful(Next(s, step))
  {
    hide CarriesPayload;
    forall t | t in Next(s, step).calls
      ensures Faithful(Next(s, step).calls[t])
    {
      CallKeeps(s, step, t);
      if step.Reserve? && step.t == t {
        ReservedPayload(s, t, step.ts);
      }
      hide Next, Enabled, CallsOk, LogOf, Stamp;
    }
  }

  lemma ReservedPayload(s: State, t: Tid, ts: int)
    requires CallsOk(s) && t in s.calls
    ensures var recs := NewRecs(s, t, ts);
            recs != [] && CarriesPayload(recs, recs[0].offset, s.calls[t].payload, ts)
  {
    assert CallOk(s, t, s.calls[t]);
    hide LogOf;
    StampCarries(|LogOf(s, s.calls[t].broker)|, s.calls[t].payload, ts);
  }

  lemma {:induction false} RunIsFaithful(s: State, steps: seq<Step>)
    requires Inv(s) && AllFaithful(s) && Possible(s, steps)
    ensures AllFaithful(Run(s, steps))
    decreases |steps|
  {
    hide Inv, AllFaithful, Enabled, Next;
    if steps != [] {
      StepKeeps(s, steps[0]);
      InvHasCalls(s);
      StepIsFaithful(s, steps[0]);
      RunIsFaithful(Next(s, steps[0]), steps[1..]);
    }
  }

  lemma InvHasCalls(s: State)
    requires Inv(s)
    ensures CallsOk(s)
  {
  }

  /** Thread t is still at work after every step. */
  predicate AtWork(s: State, steps: seq<Step>, t: Tid)
    requires Possible(s, steps)
    decreases |steps|
  {
    t in s.calls && (steps == [] || AtWork(Next(s, steps[0]), steps[1..], t))
  }

  lemma {:induction false} WorkKeepsCall(s: State, steps: seq<Step>, t: Tid)
    requires Possible(s, steps) && AtWork(s, steps, t)
    ensures var c, s' := s.calls[t], Run(s, steps);
            t in s'.calls && s'.calls[t].broker == c.broker && s'.calls[t].follower == c.follower
            && s'.calls[t].payload == c.payload
    decreases |steps|
  {
    hide Enabled, Next;
    if steps != [] {
      CallKeeps(s, steps[0], t);
      WorkKeepsCall(Next(s, steps[0]), steps[1..], t);
    }
  }

  /** In every run, between the start of a call and its answer: what is committed is what the client sent, each key and
      value in its place, at contiguous offsets and with one timestamp. */
  lemma CommitIsWhatWasSent(leader: Id, past: seq<Step>, t: Tid, b: Id, f: Option<Id>, batch: bool, payload: seq<Payload>,
                            later: seq<Step>)
    requires Possible(Initial(leader), past) && Enabled(Run(Initial(leader), past), Start(t, b, f, batch, payload))
    requires var m := Next(Run(Initial(leader), past), Start(t, b, f, batch, payload));
             && Possible(m, later) && AtWork(m, later, t) && Enabled(Run(m, later), Finish(t))
    ensures var m := Next(Run(Initial(leader), past), Start(t, b, f, batch, payload));
            var s := Run(m, later);
            var s' := Next(s, Finish(t));
            && |s'.commits| == |s.commits| + 1
            && var c := s'.commits[|s.commits|];
            && c.broker == b && c.follower == f && c.recs != []
            && exists ts :: CarriesPayload(c.recs, c.recs[0].offset, payload, ts)
  {
    var s0 := Run(Initial(leader), past);
    var start := Start(t, b, f, batch, payload);
    var m := Next(s0, start);
    RunKeeps(Initial(leader), past);
    RunIsFaithful(Initial(leader), past);
    StepKeeps(s0, start);
    StepIsFaithful(s0, start);
    RunIsFaithful(m, later);
    WorkKeepsCall(m, later, t);
    var s := Run(m, later);
    assert Faithful(s.calls[t]);
    CommitsView(s, Finish(t));
    FinishAdds(s, t);
  }

  lemma FinishAdds(s: State, t: Tid)
    requires Enabled(s, Finish(t))
    ensures var c := s.calls[t];
            !c.phase.Waiting? && Next(s, Finish(t)).commits == s.commits + [Commit(c.broker, c.follower, c.recs)]
  {
  }
}
