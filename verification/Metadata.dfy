/** The cluster state that raft replicates, its commands, and the state machine that applies them. */
module Metadata {

  datatype Assignment = Assignment(leader: string, follower: string)

  datatype Broker = Broker(id: string, rpcAddr: string)

  /** `down` holds the brokers whose entry in the Down map is true. */
  datatype Cluster = Cluster(numPartitions: int, brokers: map<string, Broker>,
                             partitions: map<int, Assignment>, down: set<string>)

  const EMPTY: Cluster := Cluster(0, map[], map[], {})

  datatype Command =
    | RegisterBroker(id: string, rpcAddr: string)
    | Assign(partition: int, leader: string, follower: string, numPartitions: int)
    | MarkDown(id: string)
    | MarkUp(id: string)
    | ReassignLeader(partition: int, leader: string, follower: string)

  function ApplyCmd(c: Cluster, cmd: Command): Cluster {
    match cmd
    case RegisterBroker(id, addr) =>
      c.(brokers := c.brokers[id := Broker(id, addr)], down := c.down - {id})
    case Assign(p, leader, follower, n) =>
      c.(numPartitions := if n > c.numPartitions then n else c.numPartitions,
         partitions := c.partitions[p := Assignment(leader, follower)])
    case MarkDown(id) =>
      c.(down := c.down + {id})
    case MarkUp(id) =>
      c.(down := c.down - {id})
    case ReassignLeader(p, leader, follower) =>
      c.(partitions := c.partitions[p := Assignment(leader, follower)])
  }

  // ----- what a log of commands amounts to -----

  function Applied(cmds: seq<Command>): Cluster {
    if cmds == [] then EMPTY else ApplyCmd(Applied(cmds[..|cmds| - 1]), cmds[|cmds| - 1])
  }

  predicate Revives(cmd: Command, id: string) {
    (cmd.MarkUp? || cmd.RegisterBroker?) && cmd.id == id
  }

  /** Command i marks the broker down, and no later one marks it up or registers it. */
  ghost predicate LastMarkedDown(cmds: seq<Command>, id: string, i: nat) {
    i < |cmds| && cmds[i] == MarkDown(id) && forall j :: i < j < |cmds| ==> !Revives(cmds[j], id)
  }

  /** A broker is down exactly when the last word on it says so. */
  lemma {:induction false} DownIsLastWord(cmds: seq<Command>, id: string)
    ensures id in Applied(cmds).down <==> exists i: nat :: LastMarkedDown(cmds, id, i)
  {
    if cmds != [] {
      var n := |cmds| - 1;
      var init := cmds[..n];
      DownIsLastWord(init, id);
      if i: nat :| LastMarkedDown(init, id, i) {
        assert !Revives(cmds[n], id) ==> LastMarkedDown(cmds, id, i);
      }
      if cmds[n] == MarkDown(id) {
        assert LastMarkedDown(cmds, id, n);
      }
      if i: nat :| LastMarkedDown(cmds, id, i) {
        assert i < n ==> LastMarkedDown(init, id, i);
      }
    }
  }

  predicate Concerns(cmd: Command, p: int) {
    (cmd.Assign? || cmd.ReassignLeader?) && cmd.partition == p
  }

  /** Command i gives partition p the assignment, and no later one is about p. */
  ghost predicate LastAssigned(cmds: seq<Command>, p: int, a: Assignment, i: nat) {
    && i < |cmds| && Concerns(cmds[i], p) && a == Assignment(cmds[i].leader, cmds[i].follower)
    && forall j :: i < j < |cmds| ==> !Concerns(cmds[j], p)
  }

  /** A partition is assigned as the last command about it says. */
  lemma {:induction false} AssignmentIsLastWord(cmds: seq<Command>, p: int, a: Assignment)
    ensures p in Applied(cmds).partitions && Applied(cmds).partitions[p] == a <==> exists i: nat :: LastAssigned(cmds, p, a, i)
  {
    if cmds != [] {
      var n := |cmds| - 1;
      var init := cmds[..n];
      AssignmentIsLastWord(init, p, a);
      if i: nat :| LastAssigned(init, p, a, i) {
        assert !Concerns(cmds[n], p) ==> LastAssigned(cmds, p, a, i);
      }
      if Concerns(cmds[n], p) && a == Assignment(cmds[n].leader, cmds[n].follower) {
        assert LastAssigned(cmds, p, a, n);
      }
      if i: nat :| LastAssigned(cmds, p, a, i) {
        assert i < n ==> LastAssigned(init, p, a, i);
      }
    }
  }

  ghost predicate LastRegistered(cmds: seq<Command>, id: string, addr: string, i: nat) {
    && i < |cmds| && cmds[i] == RegisterBroker(id, addr)
    && forall j :: i < j < |cmds| ==> !(cmds[j].RegisterBroker? && cmds[j].id == id)
  }

  /** A broker is known under the address it was last registered with. */
  lemma {:induction false} BrokerIsLastWord(cmds: seq<Command>, id: string, addr: string)
    ensures id in Applied(cmds).brokers && Applied(cmds).brokers[id] == Broker(id, addr)
            <==> exists i: nat :: LastRegistered(cmds, id, addr, i)
  {
    if cmds != [] {
      var n := |cmds| - 1;
      var init := cmds[..n];
      BrokerIsLastWord(init, id, addr);
      if i: nat :| LastRegistered(init, id, addr, i) {
        assert !(cmds[n].RegisterBroker? && cmds[n].id == id) ==> LastRegistered(cmds, id, addr, i);
      }
      if cmds[n] == RegisterBroker(id, addr) {
        assert LastRegistered(cmds, id, addr, n);
      }
      if i: nat :| LastRegistered(cmds, id, addr, i) {
        assert i < n ==> LastRegistered(init, id, addr, i);
      }
    }
  }

  /** The number of partitions is the largest any assignment came with, and not below 0. */
  lemma {:induction false} CountIsLargest(cmds: seq<Command>)
    ensures var n := Applied(cmds).numPartitions;
            && n >= 0
            && (forall i :: 0 <= i < |cmds| && cmds[i].Assign? ==> cmds[i].numPartitions <= n)
            && (n > 0 ==> exists i :: 0 <= i < |cmds| && cmds[i].Assign? && cmds[i].numPartitions == n)
  {
    if cmds != [] {
      var init := cmds[..|cmds| - 1];
      CountIsLargest(init);
      if i :| 0 <= i < |init| && init[i].Assign? && init[i].numPartitions == Applied(init).numPartitions {
        assert cmds[i] == init[i];
      }
    }
  }

  /** The replicated state machine of one broker. */
  class FSM {
    var numPartitions: int
    var brokers: map<string, Broker>
    var partitions: map<int, Assignment>
    var down: set<string>

    ghost function State(): Cluster
      reads this
    {
      Cluster(numPartitions, brokers, partitions, down)
    }

    constructor ()
      ensures State() == EMPTY
    {
      numPartitions := 0;
      brokers := map[];
      partitions := map[];
      down := {};
    }

    /** A copy of the current state. */
    method Snapshot() returns (c: Cluster)
      ensures c == State()
    {
      c := Cluster(numPartitions, brokers, partitions, down);
    }

    method Apply(cmd: Command)
      modifies this
      ensures State() == ApplyCmd(old(State()), cmd)
    {
      match cmd
      case RegisterBroker(id, addr) =>
        brokers := brokers[id := Broker(id, addr)];
        down := down - {id};
      case Assign(p, leader, follower, n) =>
        if n > numPartitions {
          numPartitions := n;
        }
        partitions := partitions[p := Assignment(leader, follower)];
      case MarkDown(id) =>
        down := down + {id};
      case MarkUp(id) =>
        down := down - {id};
      case ReassignLeader(p, leader, follower) =>
        var a := if p in partitions then partitions[p] else Assignment("", "");
        a := a.(leader := leader);
        a := a.(follower := follower);
        partitions := partitions[p := a];
    }

    /** Proposes a command; raft may refuse it, and then nothing changes. */
    method Propose(cmd: Command, accepted: bool)
      modifies this
      ensures State() == if accepted then ApplyCmd(old(State()), cmd) else old(State())
    {
      if accepted {
        Apply(cmd);
      }
    }
  }
}
