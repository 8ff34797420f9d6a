/** The control loop's two passes: registering and placing what is missing, and repairing what failed.

    Raft's answers to the commands of a pass are a function `accept`; every refusal is ignored, as in the source. */
module Controller {
  import opened Ids
  import opened Metadata

  type Accept = Command -> bool

  // ----- choosing a survivor -----

  ghost function FirstAlive(ids: seq<string>, alive: set<string>, exclude: string): (id: string)
    ensures id != "" ==> id in ids && id in alive && id != exclude
    ensures id == "" && "" !in alive ==> forall x :: x in ids && x in alive ==> x == exclude
  {
    if ids == [] then ""
    else if ids[0] != exclude && ids[0] in alive then ids[0]
    else FirstAlive(ids[1..], alive, exclude)
  }

  /** The first registered broker, in canonical order, that is neither marked down nor excluded and was probed alive. */
  ghost function Pick(c: Cluster, alive: set<string>, exclude: string): (id: string)
    ensures id != "" ==> id in c.brokers && id !in c.down && id in alive && id != exclude
    ensures id == "" && "" !in alive ==>
              forall x :: x in c.brokers && x !in c.down && x in alive ==> x == exclude
  {
    FirstAlive(SortedIds(c.brokers.Keys - c.down), alive, exclude)
  }

  lemma {:induction false} FirstAliveIsLeast(ids: seq<string>, alive: set<string>, exclude: string, x: string)
    requires StrictlySorted(ids) && x in ids && x in alive && x != exclude
    ensures var id := FirstAlive(ids, alive, exclude); id == x || Less(id, x)
  {
    if ids[0] != x {
      assert ids[0] in ids;
      var i :| 0 < i < |ids| && ids[i] == x;
      if ids[0] == exclude || ids[0] !in alive {
        assert ids[1..][i - 1] == x;
        FirstAliveIsLeast(ids[1..], alive, exclude, x);
      }
    }
  }

  /** Every broker that could be picked instead comes later in the order of ids. */
  lemma PickIsLeast(c: Cluster, alive: set<string>, exclude: string, x: string)
    requires x in c.brokers && x !in c.down && x in alive && x != exclude
    ensures Pick(c, alive, exclude) == x || Less(Pick(c, alive, exclude), x)
  {
    FirstAliveIsLeast(SortedIds(c.brokers.Keys - c.down), alive, exclude, x);
  }

  method PickAlive(c: Cluster, alive: set<string>, exclude: string) returns (id: string)
    ensures id == Pick(c, alive, exclude)
  {
    var ids := CollectSorted(c.brokers.Keys, c.down);
    var i := 0;
    assert ids[0..] == ids;
    hide FirstAlive, SortedIds, StrictlySorted;
    while i < |ids|
      invariant 0 <= i <= |ids|
      invariant FirstAlive(ids, alive, exclude) == FirstAlive(ids[i..], alive, exclude)
    {
      FirstAliveStep(ids, i, alive, exclude);
      if ids[i] != exclude && ids[i] in alive {
        return ids[i];
      }
      i := i + 1;
    }
    NoneLeftAlive(alive, exclude);
    return "";
  }

  lemma FirstAliveStep(ids: seq<string>, i: nat, alive: set<string>, exclude: string)
    requires i < |ids|
    ensures FirstAlive(ids[i..], alive, exclude) ==
            if ids[i] != exclude && ids[i] in alive then ids[i] else FirstAlive(ids[i + 1..], alive, exclude)
  {
    assert ids[i..][1..] == ids[i + 1..];
  }

  lemma NoneLeftAlive(alive: set<string>, exclude: string)
    ensures FirstAlive([], alive, exclude) == ""
  {
  }

  // ----- repairing -----

  predicate Broken(a: Assignment, alive: set<string>) {
    a.leader !in alive || (a.follower != "" && a.follower !in alive)
  }

  /** The assignment the repair pass wants for a broken partition. */
  ghost function Wanted(c: Cluster, alive: set<string>, a: Assignment): Assignment {
    var leader :=
      if a.leader in alive then a.leader
      else if a.follower in alive then a.follower
      else Pick(c, alive, "");
    Assignment(leader, Pick(c, alive, leader))
  }

  /** Whether the repair pass proposes a reassignment for partition p. */
  ghost predicate Repairs(c: Cluster, alive: set<string>, p: int) {
    && p in c.partitions && 0 <= p < c.numPartitions
    && Broken(c.partitions[p], alive)
    && Wanted(c, alive, c.partitions[p]).leader != ""
    && Wanted(c, alive, c.partitions[p]) != c.partitions[p]
  }

  ghost function RepairCmd(c: Cluster, alive: set<string>, p: int): Command
    requires p in c.partitions
  {
    var w := Wanted(c, alive, c.partitions[p]);
    ReassignLeader(p, w.leader, w.follower)
  }

  /** What a repair proposes is never broken itself. */
  lemma WantedWorks(c: Cluster, alive: set<string>, a: Assignment)
    requires "" !in alive && Wanted(c, alive, a).leader != ""
    ensures !Broken(Wanted(c, alive, a), alive)
    ensures Wanted(c, alive, a).follower != Wanted(c, alive, a).leader
  {
  }

  // ----- the commands of a pass -----

  ghost predicate IsMark(c: Cluster, alive: set<string>, cmd: Command) {
    || (cmd.MarkDown? && cmd.id in c.brokers && cmd.id !in alive && cmd.id !in c.down)
    || (cmd.MarkUp? && cmd.id in c.brokers && cmd.id in alive && cmd.id in c.down)
  }

  ghost predicate IsRepair(c: Cluster, alive: set<string>, cmd: Command) {
    cmd.ReassignLeader? && Repairs(c, alive, cmd.partition) && cmd == RepairCmd(c, alive, cmd.partition)
  }

  // ----- what one pass of reconcile does -----

  /** The ids whose down mark a pass flips, when raft accepts it. */
  ghost function Flipped(c: Cluster, alive: set<string>, accept: Accept): set<string> {
    set id | id in c.brokers
             && ((id !in alive && id !in c.down && accept(MarkDown(id))) || (id in alive && id in c.down && accept(MarkUp(id))))
  }

  ghost function Marked(c: Cluster, alive: set<string>, accept: Accept): Cluster {
    var flipped := Flipped(c, alive, accept);
    c.(down := (c.down - flipped) + (flipped - c.down))
  }

  ghost function Repaired(c: Cluster, alive: set<string>, accept: Accept): Cluster {
    c.(partitions := map p | p in c.partitions :: RepairedOne(c, alive, accept, p))
  }

  /** One pass: only registered brokers are probed; the repairs read the state left by the marks. */
  ghost function Reconciled(c: Cluster, probe: set<string>, accept: Accept): Cluster {
    var alive := probe * c.brokers.Keys;
    Repaired(Marked(c, alive, accept), alive, accept)
  }

  /** The brokers whose down mark contradicts the probe. */
  function Mismatches(c: Cluster, alive: set<string>): set<string> {
    set id | id in c.brokers && (id in alive <==> id in c.down)
  }

  function BrokenOnes(c: Cluster, alive: set<string>): set<int> {
    set p | p in c.partitions && 0 <= p < c.numPartitions && Broken(c.partitions[p], alive)
  }

  function Faults(c: Cluster, alive: set<string>): nat {
    |Mismatches(c, alive)| + |BrokenOnes(c, alive)|
  }

  lemma FlipLowers(c: Cluster, alive: set<string>, id: string)
    requires id in Mismatches(c, alive)
    ensures var c' := ApplyCmd(c, if id in alive then MarkUp(id) else MarkDown(id));
            Faults(c', alive) + 1 == Faults(c, alive) && Mismatches(c', alive) == Mismatches(c, alive) - {id}
  {
    var c' := ApplyCmd(c, if id in alive then MarkUp(id) else MarkDown(id));
    assert Mismatches(c', alive) == Mismatches(c, alive) - {id};
    assert BrokenOnes(c', alive) == BrokenOnes(c, alive);
  }

  lemma RepairLowers(c: Cluster, alive: set<string>, p: int, a: Assignment)
    requires p in BrokenOnes(c, alive) && !Broken(a, alive)
    ensures Faults(ApplyCmd(c, ReassignLeader(p, a.leader, a.follower)), alive) + 1 == Faults(c, alive)
  {
    var c' := ApplyCmd(c, ReassignLeader(p, a.leader, a.follower));
    assert Mismatches(c', alive) == Mismatches(c, alive);
    assert BrokenOnes(c', alive) == BrokenOnes(c, alive) - {p};
  }

  // ----- the pass itself -----

  /** Whether id is marked down once the pass has visited the brokers in `seen`. */
  ghost predicate MarkedDown(c: Cluster, alive: set<string>, accept: Accept, seen: set<string>, id: string) {
    if id in seen && id in Flipped(c, alive, accept) then id !in c.down else id in c.down
  }

  /** One broker of the mark pass, deciding on the snapshot c taken before the pass. */
  method MarkOne(fsm: FSM, c: Cluster, alive: set<string>, accept: Accept, id: string) returns (sent: seq<Command>, accepted: nat)
    requires id in c.brokers && fsm.State() == c.(down := fsm.down) && (id in fsm.down <==> id in c.down)
    modifies fsm
    ensures fsm.State() == c.(down := fsm.down)
    ensures id in fsm.down <==> if id in Flipped(c, alive, accept) then id !in c.down else id in c.down
    ensures forall x :: x != id ==> (x in fsm.down <==> x in old(fsm.down))
    ensures sent == [] <==> id !in Mismatches(c, alive)
    ensures forall cmd :: cmd in sent ==> IsMark(c, alive, cmd)
    ensures Faults(fsm.State(), alive) + accepted == Faults(old(fsm.State()), alive)
  {
    hide Faults;
    if id !in alive && id !in c.down {
      FlipIfAccepted(fsm.State(), alive, id);
      fsm.Propose(MarkDown(id), accept(MarkDown(id)));
      return [MarkDown(id)], if accept(MarkDown(id)) then 1 else 0;
    } else if id in alive && id in c.down {
      FlipIfAccepted(fsm.State(), alive, id);
      fsm.Propose(MarkUp(id), accept(MarkUp(id)));
      return [MarkUp(id)], if accept(MarkUp(id)) then 1 else 0;
    }
    return [], 0;
  }

  /** Marks: walks the registered brokers in any order. Every accepted command removes one mismatch. */
  method MarkPass(fsm: FSM, alive: set<string>, accept: Accept) returns (sent: seq<Command>, accepted: nat)
    requires alive <= fsm.State().brokers.Keys
    modifies fsm
    ensures fsm.State() == Marked(old(fsm.State()), alive, accept)
    ensures sent == [] <==> Mismatches(old(fsm.State()), alive) == {}
    ensures forall cmd :: cmd in sent ==> IsMark(old(fsm.State()), alive, cmd)
    ensures Faults(fsm.State(), alive) + accepted == Faults(old(fsm.State()), alive)
  {
    hide Faults, IsMark, Flipped;
    var c := fsm.Snapshot();
    var rest := c.brokers.Keys;
    sent, accepted := [], 0;
    while rest != {}
      invariant rest <= c.brokers.Keys
      invariant fsm.State() == c.(down := fsm.down)
      invariant forall id :: id in fsm.down <==> MarkedDown(c, alive, accept, c.brokers.Keys - rest, id)
      invariant sent == [] <==> Mismatches(c, alive) <= rest
      invariant forall cmd :: cmd in sent ==> IsMark(c, alive, cmd)
      invariant Faults(fsm.State(), alive) + accepted == Faults(c, alive)
      decreases rest
    {
      var id :| id in rest;
      rest := rest - {id};
      var one, n := MarkOne(fsm, c, alive, accept, id);
      sent, accepted := sent + one, accepted + n;
    }
    AllMarked(c, alive, accept, fsm.down);
  }

  lemma AllMarked(c: Cluster, alive: set<string>, accept: Accept, down: set<string>)
    requires forall id :: id in down <==> MarkedDown(c, alive, accept, c.brokers.Keys, id)
    ensures down == Marked(c, alive, accept).down
  {
  }

  lemma FlipIfAccepted(c: Cluster, alive: set<string>, id: string)
    requires id in c.brokers
    ensures id in alive && id in c.down ==> Faults(ApplyCmd(c, MarkUp(id)), alive) + 1 == Faults(c, alive)
    ensures id !in alive && id !in c.down ==> Faults(ApplyCmd(c, MarkDown(id)), alive) + 1 == Faults(c, alive)
  {
    if id in Mismatches(c, alive) {
      FlipLowers(c, alive, id);
    }
  }

  /** What the repair pass makes of partition p. */
  ghost function RepairedOne(c: Cluster, alive: set<string>, accept: Accept, p: int): Assignment
    requires p in c.partitions
  {
    if Repairs(c, alive, p) && accept(RepairCmd(c, alive, p)) then Wanted(c, alive, c.partitions[p]) else c.partitions[p]
  }

  /** The repair pass at one partition, deciding on the snapshot c taken before the pass. */
  method RepairOne(fsm: FSM, c: Cluster, alive: set<string>, accept: Accept, p: int) returns (sent: seq<Command>, accepted: nat)
    requires "" !in alive && 0 <= p < c.numPartitions
    requires fsm.State() == c.(partitions := fsm.partitions)
    requires p in c.partitions ==> p in fsm.partitions && fsm.partitions[p] == c.partitions[p]
    modifies fsm
    ensures fsm.State() == old(fsm.State()).(partitions := fsm.partitions)
    ensures fsm.partitions == if p in c.partitions then old(fsm.partitions)[p := RepairedOne(c, alive, accept, p)] else old(fsm.partitions)
    ensures sent == [] <==> !Repairs(c, alive, p)
    ensures forall cmd :: cmd in sent ==> IsRepair(c, alive, cmd)
    ensures Faults(fsm.State(), alive) + accepted == Faults(old(fsm.State()), alive)
  {
    hide Pick, Faults;
    if p !in c.partitions {
      return [], 0;
    }
    var a := c.partitions[p];
    var leaderDown := a.leader !in alive;
    var followerDown := a.follower != "" && a.follower !in alive;
    if !leaderDown && !followerDown {
      return [], 0;
    }
    var leader := a.leader;
    if leaderDown {
      if a.follower in alive {
        leader := a.follower;
      } else {
        leader := PickAlive(c, alive, "");
      }
    }
    var follower := PickAlive(c, alive, leader);
    assert Assignment(leader, follower) == Wanted(c, alive, a);
    if leader == "" || (leader == a.leader && follower == a.follower) {
      return [], 0;
    }
    var cmd := ReassignLeader(p, leader, follower);
    WantedWorks(c, alive, a);
    RepairLowers(fsm.State(), alive, p, Assignment(leader, follower));
    fsm.Propose(cmd, accept(cmd));
    return [cmd], if accept(cmd) then 1 else 0;
  }

  /** Repairs: walks the partitions in order. Every accepted command removes one broken partition. */
  method RepairPass(fsm: FSM, alive: set<string>, accept: Accept) returns (sent: seq<Command>, accepted: nat)
    requires "" !in alive
    modifies fsm
    ensures fsm.State() == Repaired(old(fsm.State()), alive, accept)
    ensures sent == [] <==> forall p :: !Repairs(old(fsm.State()), alive, p)
    ensures forall cmd :: cmd in sent ==> IsRepair(old(fsm.State()), alive, cmd)
    ensures Faults(fsm.State(), alive) + accepted == Faults(old(fsm.State()), alive)
  {
    hide Wanted, Faults;
    var c := fsm.Snapshot();
    sent, accepted := [], 0;
    var p := 0;
    while p < c.numPartitions
      invariant 0 <= p
      invariant fsm.State() == c.(partitions := fsm.partitions)
      invariant fsm.partitions.Keys == c.partitions.Keys
      invariant forall q :: q in c.partitions ==>
                  fsm.partitions[q] == if 0 <= q < p then RepairedOne(c, alive, accept, q) else c.partitions[q]
      invariant sent == [] <==> forall q :: 0 <= q < p ==> !Repairs(c, alive, q)
      invariant forall cmd :: cmd in sent ==> IsRepair(c, alive, cmd)
      invariant Faults(fsm.State(), alive) + accepted == Faults(c, alive)
    {
      var one, n := RepairOne(fsm, c, alive, accept, p);
      sent, accepted := sent + one, accepted + n;
      p := p + 1;
    }
    assert fsm.partitions == Repaired(c, alive, accept).partitions;
  }

  /** Probes the registered brokers, fixes their marks, then repairs the partitions. However many commands are
      refused, each accepted one removes exactly one fault. */
  method Reconcile(fsm: FSM, probe: set<string>, accept: Accept) returns (sent: seq<Command>, accepted: nat)
    requires "" !in fsm.brokers
    modifies fsm
    ensures fsm.State() == Reconciled(old(fsm.State()), probe, accept)
    ensures var alive := probe * old(fsm.brokers).Keys;
            && (sent == [] <==> Quiet(old(fsm.State()), alive, accept))
            && (forall cmd :: cmd in sent ==>
                  IsMark(old(fsm.State()), alive, cmd) || IsRepair(Marked(old(fsm.State()), alive, accept), alive, cmd))
            && Faults(fsm.State(), alive) + accepted == Faults(old(fsm.State()), alive)
  {
    var alive := probe * fsm.brokers.Keys;
    var marks, n := MarkPass(fsm, alive, accept);
    var repairs, m := RepairPass(fsm, alive, accept);
    sent, accepted := marks + repairs, n + m;
  }

  /** Nothing to mark and nothing to repair. */
  ghost predicate Quiet(c: Cluster, alive: set<string>, accept: Accept) {
    Mismatches(c, alive) == {} && forall p :: !Repairs(Marked(c, alive, accept), alive, p)
  }
}
