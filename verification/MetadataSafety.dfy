/** What the cluster state keeps over every run of any number of controllers, each working on states it may have
    read long ago, with any probe results and any refusals. */
module MetadataSafety {
  import opened Ids
  import opened Metadata
  import opened Controller
  import opened Bootstrap

  /** A command some controller may send: worked out from states of the past, with any probe of the brokers
      registered in one of them, and any number of partitions configured. */
  ghost predicate MayPropose(h: seq<Cluster>, peers: Peers, cmd: Command) {
    || (exists i :: 0 <= i < |h| && (IsRegister(h[i], peers, cmd) || IsAssign(h[i], peers, cmd)))
    || (exists i, alive :: 0 <= i < |h| && alive <= h[i].brokers.Keys && IsMark(h[i], alive, cmd))
    || (exists i, j, alive :: 0 <= i < |h| && 0 <= j < |h| && alive <= h[i].brokers.Keys && IsRepair(h[j], alive, cmd))
  }

  /** The states raft goes through, one accepted command after the other. */
  ghost predicate History(h: seq<Cluster>, peers: Peers) {
    if |h| <= 1 then h == [EMPTY]
    else
      var before := h[..|h| - 1];
      History(before, peers)
      && exists cmd :: MayPropose(before, peers, cmd) && h[|h| - 1] == ApplyCmd(before[|before| - 1], cmd)
  }

  /** Leaders are configured brokers, a follower is another one or missing, partitions are numbered below the count. */
  ghost predicate Sound(c: Cluster, peers: Peers) {
    && c.brokers.Keys <= peers.Keys
    && forall p :: p in c.partitions ==>
         && 0 <= p < c.numPartitions
         && SoundAssignment(c.partitions[p], peers)
  }

  predicate SoundAssignment(a: Assignment, peers: Peers) {
    a.leader in peers && a.leader != "" && (a.follower == "" || (a.follower in peers && a.follower != a.leader))
  }

  /** Brokers and partitions are only ever added. */
  ghost predicate Grows(h: seq<Cluster>) {
    forall i, j :: 0 <= i <= j < |h| ==>
      && h[i].brokers.Keys <= h[j].brokers.Keys
      && h[i].partitions.Keys <= h[j].partitions.Keys
      && h[i].numPartitions <= h[j].numPartitions
  }

  ghost predicate AllSound(h: seq<Cluster>, peers: Peers) {
    Grows(h) && forall i :: 0 <= i < |h| ==> Sound(h[i], peers)
  }

  lemma PlaceIsSound(peers: Peers, p: nat)
    requires "" !in peers && |peers| > 1
    ensures SoundAssignment(Place(peers, p), peers)
  {
    var ids := SortedIds(peers.Keys);
    var n := |ids|;
    assert ids[p % n] in ids && ids[(p + 1) % n] in ids;
    DivStep(p, n);
    SortedAreDistinct(ids, p % n, (p + 1) % n);
  }

  lemma RepairIsSound(c: Cluster, peers: Peers, alive: set<string>, cmd: Command)
    requires "" !in peers && Sound(c, peers) && alive <= peers.Keys && IsRepair(c, alive, cmd)
    ensures cmd.partition in c.partitions && SoundAssignment(Assignment(cmd.leader, cmd.follower), peers)
  {
    assert SoundAssignment(c.partitions[cmd.partition], peers);
  }

  /** One accepted command keeps everything. */
  lemma CommandKeeps(h: seq<Cluster>, peers: Peers, cmd: Command)
    requires "" !in peers && |peers| != 1
    requires h != [] && AllSound(h, peers) && MayPropose(h, peers, cmd)
    ensures var c, c' := h[|h| - 1], ApplyCmd(h[|h| - 1], cmd);
            && Sound(c', peers)
            && c.brokers.Keys <= c'.brokers.Keys && c.partitions.Keys <= c'.partitions.Keys
            && c.numPartitions <= c'.numPartitions
  {
    hide Place, Wanted, Repairs, RepairCmd, SoundAssignment, MayPropose, IsRepair;
    var c := h[|h| - 1];
    assert Sound(c, peers);
    match cmd
    case Assign(p, leader, follower, n) => ProposedAssign(h, peers, cmd);
    case ReassignLeader(p, leader, follower) => ProposedRepair(h, peers, cmd);
    case RegisterBroker(id, addr) => ProposedRegister(h, peers, cmd);
    case _ =>
  }

  lemma ProposedRegister(h: seq<Cluster>, peers: Peers, cmd: Command)
    requires cmd.RegisterBroker? && MayPropose(h, peers, cmd)
    ensures cmd.id in peers
  {
  }

  lemma ProposedAssign(h: seq<Cluster>, peers: Peers, cmd: Command)
    requires "" !in peers && |peers| != 1 && cmd.Assign? && MayPropose(h, peers, cmd)
    ensures 0 <= cmd.partition < cmd.numPartitions && SoundAssignment(Assignment(cmd.leader, cmd.follower), peers)
  {
    hide Place, SoundAssignment;
    assert peers != map[] && cmd == AssignCmd(peers, cmd.numPartitions, cmd.partition);
    assert |peers| > 1 by {
      assert |peers| != 0;
    }
    PlaceIsSound(peers, cmd.partition);
  }

  lemma ProposedRepair(h: seq<Cluster>, peers: Peers, cmd: Command)
    requires "" !in peers && h != [] && AllSound(h, peers) && cmd.ReassignLeader? && MayPropose(h, peers, cmd)
    ensures cmd.partition in h[|h| - 1].partitions && SoundAssignment(Assignment(cmd.leader, cmd.follower), peers)
  {
    hide Repairs, RepairCmd, SoundAssignment;
    var i, j, alive :| 0 <= i < |h| && 0 <= j < |h| && alive <= h[i].brokers.Keys && IsRepair(h[j], alive, cmd);
    assert Sound(h[i], peers) && Sound(h[j], peers);
    RepairIsSound(h[j], peers, alive, cmd);
    assert h[j].partitions.Keys <= h[|h| - 1].partitions.Keys;
  }

  lemma OneMoreState(before: seq<Cluster>, c': Cluster, peers: Peers)
    requires before != [] && AllSound(before, peers) && Sound(c', peers)
    requires var c := before[|before| - 1];
             c.brokers.Keys <= c'.brokers.Keys && c.partitions.Keys <= c'.partitions.Keys && c.numPartitions <= c'.numPartitions
    ensures AllSound(before + [c'], peers)
  {
    hide Sound;
    var h, n := before + [c'], |before|;
    forall i, j | 0 <= i <= j < |h|
      ensures h[i].brokers.Keys <= h[j].brokers.Keys && h[i].partitions.Keys <= h[j].partitions.Keys
      ensures h[i].numPartitions <= h[j].numPartitions
    {
      var k := if j < n then j else n - 1;
      assert i < n ==> before[i].brokers.Keys <= before[k].brokers.Keys;
    }
  }

  lemma {:induction false} HistoryIsSound(h: seq<Cluster>, peers: Peers)
    requires "" !in peers && |peers| != 1 && History(h, peers)
    ensures h != [] && AllSound(h, peers)
  {
    hide MayPropose;
    if |h| > 1 {
      var n := |h| - 1;
      var before := h[..n];
      HistoryIsSound(before, peers);
      var cmd :| MayPropose(before, peers, cmd) && h[n] == ApplyCmd(before[n - 1], cmd);
      CommandKeeps(before, peers, cmd);
      hide AllSound, Sound, ApplyCmd;
      OneMoreState(before, h[n], peers);
      assert h == before + [h[n]];
    }
  }

  /** With a single configured broker the first placement already makes it its own follower. */
  lemma LonelyPlacement(peers: Peers) returns (h: seq<Cluster>)
    requires |peers| == 1
    ensures History(h, peers) && !AllSound(h, peers)
  {
    var ids := SortedIds(peers.Keys);
    var cmd := AssignCmd(peers, 1, 0);
    assert cmd.leader == cmd.follower == ids[0];
    var c := ApplyCmd(EMPTY, cmd);
    h := [EMPTY, c];
    assert IsAssign(EMPTY, peers, cmd);
    assert h[..1] == [EMPTY] && [EMPTY][0] == EMPTY;
    assert MayPropose([EMPTY], peers, cmd);
    assert c.partitions[0] == Assignment(ids[0], ids[0]);
    assert !SoundAssignment(c.partitions[0], peers) by {
      assert ids[0] in ids && ids[0] in peers;
    }
    assert !Sound(h[1], peers);
  }

  /** Metadata safety: over all runs, exactly when not just one broker is configured. */
  lemma SafeIffNotAlone(peers: Peers)
    requires "" !in peers
    ensures |peers| != 1 <==> forall h :: History(h, peers) ==> AllSound(h, peers)
  {
    hide History, AllSound;
    if |peers| != 1 {
      forall h | History(h, peers)
        ensures AllSound(h, peers)
      {
        HistoryIsSound(h, peers);
      }
    } else {
      var h := LonelyPlacement(peers);
    }
  }
}
