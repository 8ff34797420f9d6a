/** The replication protocol of one (topic, partition) as a state machine over its atomic steps.

    Brokers are numbered. Nothing forces a broker that handles a write to be the partition's current
    leader, or the follower it names to be the current one: assignments may be stale. */
module Protocol {
  import opened Records
  import opened Replication

  type Id = nat
  type Tid = nat
  type Rid = nat

  datatype Option<+T> = None | Some(value: T)

  /** Where a Produce or ProduceBatch call is: before the produce lock, asking the follower how far it got,
      sending its remaining messages and waiting for each ack, or appending its i-th record locally. */
  datatype Phase = Waiting | Asking | Sending(todo: seq<seq<Record>>) | Writing(i: nat)

  datatype Call = Call(broker: Id, follower: Option<Id>, batch: bool, payload: seq<Payload>,
                       recs: seq<Record>, phase: Phase)

  /** A replication message on its way or being handled; `done` of its records are applied, under `origin`.
      A lost ack, a late delivery and a record that reappears after a disk failure are all messages; the last
      is one that a broker sends to itself, and it keeps the origin it had. */
  datatype Rpc = Rpc(dest: Id, recs: seq<Record>, done: nat, origin: Origin)

  /** A write answered as committed. */
  datatype Commit = Commit(broker: Id, follower: Option<Id>, recs: seq<Record>)

  /** How an entry got into a log: appended by a write handled there, or received from another broker. */
  datatype Origin = Local(follower: Option<Id>) | Received(from: Id)

  datatype State = State(
    logs: map<Id, seq<Record>>,
    origins: map<Id, seq<Origin>>,
    locks: map<Id, Tid>,
    calls: map<Tid, Call>,
    rpcs: map<Rid, Rpc>,
    leader: Id,
    commits: seq<Commit>)

  function Initial(leader: Id): State {
    State(map[], map[], map[], map[], map[], leader, [])
  }

  function LogOf(s: State, b: Id): seq<Record> {
    if b in s.logs then s.logs[b] else []
  }

  function OriginsOf(s: State, b: Id): seq<Origin> {
    if b in s.origins then s.origins[b] else []
  }

  /** One past the last offset of a non-empty run of records. */
  function End(recs: seq<Record>): nat {
    if recs == [] then 0 else recs[0].offset + |recs|
  }

  datatype Step =
    | Start(t: Tid, broker: Id, follower: Option<Id>, batch: bool, payload: seq<Payload>)
    | Reserve(t: Tid, ts: int)
    | Ask(t: Tid)
    | Send(t: Tid, rid: Rid)
    | Apply(rid: Rid)
    | Drop(rid: Rid)
    | Ack(t: Tid, rid: Rid)
    | Store(t: Tid)
    | DiskFail(t: Tid, rid: Rid)
    | Finish(t: Tid)
    | GiveUp(t: Tid)
    | Crash(broker: Id)
    | Reassign(leader: Id)

  predicate Enabled(s: State, step: Step) {
    match step
    case Start(t, b, f, batch, payload) =>
      t !in s.calls && f != Some(b) && payload != [] && (batch || |payload| == 1)
    case Reserve(t, ts) =>
      t in s.calls && s.calls[t].phase.Waiting? && s.calls[t].broker !in s.locks
    case Ask(t) =>
      t in s.calls && s.calls[t].phase.Asking? && s.calls[t].follower.Some? && s.calls[t].recs != []
    case Send(t, rid) =>
      t in s.calls && s.calls[t].phase.Sending? && s.calls[t].phase.todo != [] && s.calls[t].follower.Some?
      && rid !in s.rpcs
    case Apply(rid) =>
      rid in s.rpcs && s.rpcs[rid].done < |s.rpcs[rid].recs|
      && Takes(LogOf(s, s.rpcs[rid].dest), s.rpcs[rid].recs[s.rpcs[rid].done])
    case Drop(rid) =>
      rid in s.rpcs
    case Ack(t, rid) =>
      t in s.calls && s.calls[t].phase.Sending? && s.calls[t].phase.todo != [] && rid in s.rpcs
      && s.calls[t].follower == Some(s.rpcs[rid].dest)
      && s.rpcs[rid].recs == s.calls[t].phase.todo[0]
      && s.rpcs[rid].done == |s.rpcs[rid].recs|
    case Store(t) =>
      t in s.calls && s.calls[t].phase.Writing? && s.calls[t].phase.i < |s.calls[t].recs|
      && Takes(LogOf(s, s.calls[t].broker), s.calls[t].recs[s.calls[t].phase.i])
    case DiskFail(t, rid) =>
      t in s.calls && s.calls[t].phase.Writing? && s.calls[t].phase.i < |s.calls[t].recs| && rid !in s.rpcs
    case Finish(t) =>
      t in s.calls && s.calls[t].phase.Writing? && s.calls[t].phase.i == |s.calls[t].recs|
    case GiveUp(t) =>
      t in s.calls && !s.calls[t].phase.Writing?
    case Crash(b) => true
    case Reassign(l) => true
  }

  /** The idempotent append of one record at a broker. */
  function Accept(s: State, b: Id, r: Record, o: Origin): (s': State)
    ensures s' == s.(logs := s'.logs, origins := s'.origins)
  {
    if r.offset == |LogOf(s, b)|
    then s.(logs := s.logs[b := LogOf(s, b) + [r]], origins := s.origins[b := OriginsOf(s, b) + [o]])
    else s
  }

  function NewRecs(s: State, t: Tid, ts: int): seq<Record>
    requires t in s.calls
  {
    Stamp(|LogOf(s, s.calls[t].broker)|, s.calls[t].payload, ts)
  }

  /** The stretch of the leader's own log that the follower misses. */
  function Gap(lead: seq<Record>, from: nat, upTo: nat): seq<Record> {
    if from < upTo <= |lead| then lead[from..upTo] else []
  }

  /** The call leaves, and gives the produce lock back if it held it. */
  function Leave(s: State, t: Tid): State
    requires t in s.calls
  {
    s.(calls := s.calls - {t},
       locks := if s.calls[t].phase.Waiting? then s.locks else s.locks - {s.calls[t].broker})
  }

  function MoveTo(s: State, t: Tid, phase: Phase): State
    requires t in s.calls
  {
    s.(calls := s.calls[t := s.calls[t].(phase := phase)])
  }

  /** The frame a failed local append left on the disk, perhaps to be found at the next restart. */
  function Residue(c: Call): Rpc
    requires c.phase.Writing? && c.phase.i < |c.recs|
  {
    Rpc(c.broker, [c.recs[c.phase.i]], 0, Local(c.follower))
  }

  function Next(s: State, step: Step): State
    requires Enabled(s, step)
  {
    match step
    case Start(t, b, f, batch, payload) =>
      s.(calls := s.calls[t := Call(b, f, batch, payload, [], Waiting)])
    case Reserve(t, ts) =>
      var c := s.calls[t];
      s.(locks := s.locks[c.broker := t],
         calls := s.calls[t := c.(recs := NewRecs(s, t, ts), phase := if c.follower.None? then Writing(0) else Asking)])
    case Ask(t) =>
      var c := s.calls[t];
      var missing := Gap(LogOf(s, c.broker), |LogOf(s, c.follower.value)|, c.recs[0].offset);
      MoveTo(s, t, Sending(Plan(c.batch, missing, c.recs)))
    case Send(t, rid) =>
      var c := s.calls[t];
      s.(rpcs := s.rpcs[rid := Rpc(c.follower.value, c.phase.todo[0], 0, Received(c.broker))])
    case Apply(rid) =>
      var m := s.rpcs[rid];
      Accept(s, m.dest, m.recs[m.done], m.origin).(rpcs := s.rpcs[rid := m.(done := m.done + 1)])
    case Drop(rid) =>
      s.(rpcs := s.rpcs - {rid})
    case Ack(t, rid) =>
      var todo := s.calls[t].phase.todo;
      MoveTo(s, t, if |todo| == 1 then Writing(0) else Sending(todo[1..])).(rpcs := s.rpcs - {rid})
    case Store(t) =>
      var c := s.calls[t];
      MoveTo(Accept(s, c.broker, c.recs[c.phase.i], Local(c.follower)), t, Writing(c.phase.i + 1))
    case DiskFail(t, rid) =>
      var c := s.calls[t];
      Leave(s, t).(rpcs := s.rpcs[rid := Residue(c)])
    case Finish(t) =>
      var c := s.calls[t];
      Leave(s, t).(commits := s.commits + [Commit(c.broker, c.follower, c.recs)])
    case GiveUp(t) =>
      Leave(s, t)
    case Crash(b) =>
      s.(calls := map t | t in s.calls && s.calls[t].broker != b :: s.calls[t], locks := s.locks - {b})
    case Reassign(l) =>
      s.(leader := l)
  }

  /** A run: every step is possible where it is taken. */
  predicate Possible(s: State, steps: seq<Step>)
    decreases |steps|
  {
    steps == [] || (Enabled(s, steps[0]) && Possible(Next(s, steps[0]), steps[1..]))
  }

  function Run(s: State, steps: seq<Step>): State
    requires Possible(s, steps)
    decreases |steps|
  {
    if steps == [] then s else Run(Next(s, steps[0]), steps[1..])
  }

  /** A record that a step adds at the end of a broker's log. */
  datatype Addition = Addition(broker: Id, rec: Record, origin: Origin)

  function Added(s: State, step: Step): Option<Addition>
    requires Enabled(s, step)
  {
    match step
    case Apply(rid) =>
      var m := s.rpcs[rid];
      if m.recs[m.done].offset == |LogOf(s, m.dest)| then Some(Addition(m.dest, m.recs[m.done], m.origin)) else None
    case Store(t) =>
      var c := s.calls[t];
      if c.recs[c.phase.i].offset == |LogOf(s, c.broker)|
      then Some(Addition(c.broker, c.recs[c.phase.i], Local(c.follower))) else None
    case _ => None
  }

  /** Nothing else happens to a log. */
  lemma OnlyAdded(s: State, step: Step, d: Id)
    requires Enabled(s, step)
    ensures var added, s' := Added(s, step), Next(s, step);
            if added.Some? && added.value.broker == d
            then && LogOf(s', d) == LogOf(s, d) + [added.value.rec]
                 && OriginsOf(s', d) == OriginsOf(s, d) + [added.value.origin]
            else LogOf(s', d) == LogOf(s, d) && OriginsOf(s', d) == OriginsOf(s, d)
    ensures Added(s, step).Some? ==> Added(s, step).value.rec.offset == |LogOf(s, Added(s, step).value.broker)|
  {
    hide Stamp, Plan, Gap;
  }

  lemma LogsOnlyGrow(s: State, step: Step, b: Id)
    requires Enabled(s, step)
    ensures LogOf(s, b) <= LogOf(Next(s, step), b)
    ensures OriginsOf(s, b) <= OriginsOf(Next(s, step), b)
  {
    OnlyAdded(s, step, b);
    hide Next, Enabled, LogOf, OriginsOf, Added;
  }
}
