/** Registration and first placement: one fixed, balanced placement however often commands are refused. */
module Bootstrap {
  import opened Basics
  import opened Ids
  import opened Metadata
  import opened Controller

  /** The configured brokers and their addresses. */
  type Peers = map<string, string>

  // ----- the placement -----

  /** The assignment of partition p among n brokers listed in canonical order. */
  ghost function Place(peers: Peers, p: nat): Assignment
    requires peers != map[]
  {
    var ids := SortedIds(peers.Keys);
    Assignment(ids[p % |ids|], ids[(p + 1) % |ids|])
  }

  ghost function Placement(peers: Peers, count: nat): map<int, Assignment>
    requires peers != map[]
  {
    map p: int | 0 <= p < count :: Place(peers, p)
  }

  // ----- one pass -----

  predicate Complete(c: Cluster, peers: Peers, count: nat) {
    |c.brokers| == |peers| && |c.partitions| == count
  }

  /** The ids that a pass registers, when raft accepts it. */
  ghost function Joining(c: Cluster, peers: Peers, accept: Accept): set<string> {
    set id | id in peers && id !in c.brokers && accept(RegisterBroker(id, peers[id]))
  }

  ghost function Registered(c: Cluster, peers: Peers, accept: Accept): Cluster {
    var joining := Joining(c, peers, accept);
    c.(brokers := map id | id in c.brokers.Keys + joining ::
                    if id in c.brokers then c.brokers[id] else Broker(id, peers[id]),
       down := c.down - joining)
  }

  ghost function AssignCmd(peers: Peers, count: nat, p: nat): Command
    requires peers != map[]
  {
    Assign(p, Place(peers, p).leader, Place(peers, p).follower, count)
  }

  /** The partitions below `upTo` that a pass assigns: those the snapshot misses, when raft accepts. */
  ghost function Filling(c: Cluster, peers: Peers, count: nat, upTo: nat, accept: Accept): set<int>
    requires peers != map[]
  {
    set p: int | 0 <= p < upTo && p !in c.partitions && accept(AssignCmd(peers, count, p))
  }

  ghost function Filled(c: Cluster, peers: Peers, count: nat, upTo: nat, accept: Accept): Cluster
    requires peers != map[]
  {
    var filling := Filling(c, peers, count, upTo, accept);
    c.(partitions := map p: int | p in c.partitions.Keys + filling ::
                       if p in c.partitions then c.partitions[p] else Place(peers, p),
       numPartitions := if filling != {} && count > c.numPartitions then count else c.numPartitions)
  }

  ghost function Bootstrapped(c: Cluster, peers: Peers, count: nat, accept: Accept): Cluster {
    if Complete(c, peers, count) || peers == map[] then c
    else Filled(Registered(c, peers, accept), peers, count, count, accept)
  }

  // ----- the commands of a pass -----

  ghost predicate IsRegister(c: Cluster, peers: Peers, cmd: Command) {
    cmd.RegisterBroker? && cmd.id in peers && cmd.id !in c.brokers && cmd.rpcAddr == peers[cmd.id]
  }

  ghost predicate IsAssign(c: Cluster, peers: Peers, cmd: Command) {
    && cmd.Assign? && peers != map[]
    && 0 <= cmd.partition < cmd.numPartitions && cmd.partition !in c.partitions
    && cmd == AssignCmd(peers, cmd.numPartitions, cmd.partition)
  }

  /** What the brokers are once the pass has visited the peers in `seen`. */
  ghost function RegisteredAmong(c: Cluster, peers: Peers, accept: Accept, seen: set<string>): Cluster {
    var joining := Joining(c, peers, accept) * seen;
    c.(brokers := map id | id in c.brokers.Keys + joining ::
                    if id in c.brokers then c.brokers[id] else Broker(id, peers[id]),
       down := c.down - joining)
  }

  lemma RegisterOneMore(c: Cluster, peers: Peers, accept: Accept, seen: set<string>, id: string)
    requires id in peers && id !in seen
    ensures var before, cmd := RegisteredAmong(c, peers, accept, seen), RegisterBroker(id, peers[id]);
            RegisteredAmong(c, peers, accept, seen + {id}) ==
            if id !in c.brokers && accept(cmd) then ApplyCmd(before, cmd) else before
  {
    var joining := Joining(c, peers, accept);
    assert joining * (seen + {id}) == if id in joining then joining * seen + {id} else joining * seen;
    var before, after := RegisteredAmong(c, peers, accept, seen), RegisteredAmong(c, peers, accept, seen + {id});
    if id in joining {
      assert after.brokers == before.brokers[id := Broker(id, peers[id])];
    }
  }

  lemma RegisterAll(c: Cluster, peers: Peers, accept: Accept)
    ensures RegisteredAmong(c, peers, accept, {}) == c
    ensures RegisteredAmong(c, peers, accept, peers.Keys) == Registered(c, peers, accept)
  {
    assert RegisteredAmong(c, peers, accept, {}).brokers == c.brokers;
    assert Joining(c, peers, accept) * peers.Keys == Joining(c, peers, accept);
  }

  /** Registers the peers the snapshot misses, in any order. */
  method RegisterMissing(fsm: FSM, c: Cluster, peers: Peers, accept: Accept) returns (sent: seq<Command>)
    requires fsm.State() == c
    modifies fsm
    ensures fsm.State() == Registered(c, peers, accept)
    ensures forall cmd :: cmd in sent ==> IsRegister(c, peers, cmd)
  {
    hide RegisteredAmong, Registered, ApplyCmd;
    var rest := peers.Keys;
    sent := [];
    RegisterAll(c, peers, accept);
    assert peers.Keys - rest == {};
    while rest != {}
      invariant rest <= peers.Keys
      invariant forall cmd :: cmd in sent ==> IsRegister(c, peers, cmd)
      invariant fsm.State() == RegisteredAmong(c, peers, accept, peers.Keys - rest)
      decreases rest
    {
      var id :| id in rest;
      RegisterOneMore(c, peers, accept, peers.Keys - rest, id);
      assert peers.Keys - (rest - {id}) == (peers.Keys - rest) + {id};
      rest := rest - {id};
      if id !in c.brokers {
        var cmd := RegisterBroker(id, peers[id]);
        fsm.Propose(cmd, accept(cmd));
        sent := sent + [cmd];
      }
    }
    assert peers.Keys - rest == peers.Keys;
  }

  /** Assigns one partition to two neighbours in the canonical order, unless the snapshot has it. */
  method AssignOne(fsm: FSM, missing: Cluster, ids: seq<string>, peers: Peers, count: nat, p: nat, accept: Accept)
    returns (sent: seq<Command>)
    requires peers != map[] && ids == SortedIds(peers.Keys) && p < count
    modifies fsm
    ensures fsm.State() == if p !in missing.partitions && accept(AssignCmd(peers, count, p))
                           then ApplyCmd(old(fsm.State()), AssignCmd(peers, count, p)) else old(fsm.State())
    ensures forall cmd :: cmd in sent ==> IsAssign(missing, peers, cmd)
  {
    hide ApplyCmd, SortedIds, StrictlySorted;
    if p in missing.partitions {
      return [];
    }
    var n := |ids|;
    var leader, follower := ids[p % n], ids[(p + 1) % n];
    var cmd := Assign(p, leader, follower, count);
    fsm.Propose(cmd, accept(cmd));
    return [cmd];
  }

  /** Assigns the partitions the snapshot misses, in order. */
  method AssignMissing(fsm: FSM, missing: Cluster, peers: Peers, count: nat, accept: Accept) returns (sent: seq<Command>)
    requires peers != map[] && fsm.State().partitions == missing.partitions
    modifies fsm
    ensures fsm.State() == Filled(old(fsm.State()), peers, count, count, accept)
    ensures forall cmd :: cmd in sent ==> IsAssign(missing, peers, cmd)
  {
    sent := [];
    var ids := CollectSorted(peers.Keys, {});
    assert peers.Keys - {} == peers.Keys;
    ghost var c := fsm.State();
    var p := 0;
    FillNothing(c, peers, count, accept);
    hide Filled, Place, AssignCmd, ApplyCmd, IsAssign, SortedIds;
    while p < count
      invariant 0 <= p <= count
      invariant fsm.State() == Filled(c, peers, count, p, accept)
      invariant forall cmd :: cmd in sent ==> IsAssign(missing, peers, cmd)
    {
      FillOneMore(c, peers, count, p, accept);
      var one := AssignOne(fsm, missing, ids, peers, count, p, accept);
      sent := sent + one;
      p := p + 1;
    }
  }

  lemma FillNothing(c: Cluster, peers: Peers, count: nat, accept: Accept)
    requires peers != map[]
    ensures Filled(c, peers, count, 0, accept) == c
  {
    hide Place;
    assert Filling(c, peers, count, 0, accept) == {};
    assert Filled(c, peers, count, 0, accept).partitions == c.partitions;
  }

  lemma FillOneMore(c: Cluster, peers: Peers, count: nat, p: nat, accept: Accept)
    requires peers != map[] && p < count
    ensures Filled(c, peers, count, p + 1, accept) ==
            if p !in c.partitions && accept(AssignCmd(peers, count, p))
            then ApplyCmd(Filled(c, peers, count, p, accept), AssignCmd(peers, count, p))
            else Filled(c, peers, count, p, accept)
  {
    hide Place;
    var f, f' := Filling(c, peers, count, p, accept), Filling(c, peers, count, p + 1, accept);
    if p !in c.partitions && accept(AssignCmd(peers, count, p)) {
      assert f' == f + {p};
    } else {
      assert f' == f;
    }
  }

  /** The bootstrap pass of the controller. */
  method EnsureBootstrap(fsm: FSM, peers: Peers, count: nat, accept: Accept) returns (sent: seq<Command>)
    modifies fsm
    ensures fsm.State() == Bootstrapped(old(fsm.State()), peers, count, accept)
    ensures forall cmd :: cmd in sent ==>
              IsRegister(old(fsm.State()), peers, cmd) || IsAssign(old(fsm.State()), peers, cmd)
  {
    var c := fsm.Snapshot();
    if |c.brokers| == |peers| && |c.partitions| == count {
      return [];
    }
    var joins := RegisterMissing(fsm, c, peers, accept);
    if |peers| == 0 {
      NobodyJoins(c, accept);
      return joins;
    }
    var places := AssignMissing(fsm, c, peers, count, accept);
    return joins + places;
  }

  lemma NobodyJoins(c: Cluster, accept: Accept)
    ensures Registered(c, map[], accept) == c
  {
    assert Registered(c, map[], accept).brokers == c.brokers;
  }

  // ----- repeated passes -----

  function Roster(peers: Peers): map<string, Broker> {
    map id | id in peers :: Broker(id, peers[id])
  }

  /** The state every bootstrap works towards. */
  ghost function Goal(peers: Peers, count: nat): Cluster
    requires peers != map[]
  {
    Cluster(count, Roster(peers), Placement(peers, count), {})
  }

  /** A part of the goal: some brokers registered, some partitions placed, nothing else. */
  ghost predicate Toward(c: Cluster, peers: Peers, count: nat)
    requires peers != map[]
  {
    && c.brokers.Keys <= peers.Keys && (forall id :: id in c.brokers ==> c.brokers[id] == Broker(id, peers[id]))
    && c.partitions.Keys <= Placement(peers, count).Keys
    && (forall p :: p in c.partitions ==> c.partitions[p] == Place(peers, p))
    && c.down == {}
    && c.numPartitions == if c.partitions == map[] then 0 else count
  }

  /** Nothing placed or registered is changed or taken away. */
  ghost predicate Extends(c: Cluster, c': Cluster) {
    && c.brokers.Keys <= c'.brokers.Keys && (forall id :: id in c.brokers ==> c'.brokers[id] == c.brokers[id])
    && c.partitions.Keys <= c'.partitions.Keys && (forall p :: p in c.partitions ==> c'.partitions[p] == c.partitions[p])
  }

  ghost function Passes(c: Cluster, peers: Peers, count: nat, accepts: seq<Accept>): Cluster
    decreases |accepts|
  {
    if accepts == [] then c else Passes(Bootstrapped(c, peers, count, accepts[0]), peers, count, accepts[1..])
  }

  lemma RegisteringKeepsToward(c: Cluster, peers: Peers, count: nat, accept: Accept)
    requires peers != map[] && Toward(c, peers, count)
    ensures var r := Registered(c, peers, accept); Toward(r, peers, count) && Extends(c, r)
    ensures (forall cmd :: accept(cmd)) ==> Registered(c, peers, accept).brokers == Roster(peers)
  {
    hide Place, Placement;
  }

  lemma FillingKeepsToward(r: Cluster, peers: Peers, count: nat, accept: Accept)
    requires peers != map[] && Toward(r, peers, count)
    ensures var c' := Filled(r, peers, count, count, accept); Toward(c', peers, count) && Extends(r, c')
  {
    hide Place;
    var c' := Filled(r, peers, count, count, accept);
    var filling := Filling(r, peers, count, count, accept);
    assert c'.partitions.Keys == r.partitions.Keys + filling;
    assert c'.partitions == map[] ==> filling == {};
    if c'.partitions != map[] && r.partitions == map[] {
      var p :| p in c'.partitions;
      assert p in filling;
    }
  }

  lemma PassKeepsToward(c: Cluster, peers: Peers, count: nat, accept: Accept)
    requires peers != map[] && Toward(c, peers, count)
    ensures var c' := Bootstrapped(c, peers, count, accept); Toward(c', peers, count) && Extends(c, c')
  {
    RegisteringKeepsToward(c, peers, count, accept);
    FillingKeepsToward(Registered(c, peers, accept), peers, count, accept);
    hide Registered, Filled, Toward;
  }

  lemma SubsetOfSameSize<T>(a: set<T>, b: set<T>)
    requires a <= b && |a| == |b|
    ensures a == b
  {
    assert |b - a| == |b| - |a|;
    assert b == a + (b - a);
  }

  lemma {:induction false} PlacementSize(peers: Peers, count: nat)
    requires peers != map[]
    ensures |Placement(peers, count)| == count && |Roster(peers)| == |peers|
  {
    hide Place;
    assert Roster(peers).Keys == peers.Keys;
    if count == 0 {
      assert Placement(peers, 0) == map[];
    } else {
      PlacementSize(peers, count - 1);
      assert Placement(peers, count) == Placement(peers, count - 1)[count - 1 := Place(peers, count - 1)];
    }
  }

  /** The controller's completeness test, which only counts, is exact on what bootstrap can produce. */
  lemma CompleteIsGoal(c: Cluster, peers: Peers, count: nat)
    requires peers != map[] && Toward(c, peers, count)
    ensures Complete(c, peers, count) <==> c == Goal(peers, count)
  {
    hide Place;
    PlacementSize(peers, count);
    if Complete(c, peers, count) {
      SubsetOfSameSize(c.brokers.Keys, peers.Keys);
      SubsetOfSameSize(c.partitions.Keys, Placement(peers, count).Keys);
      assert c.brokers == Roster(peers);
      assert c.partitions == Placement(peers, count);
    }
  }

  lemma {:induction false} PassesStayToward(c: Cluster, peers: Peers, count: nat, accepts: seq<Accept>)
    requires peers != map[] && Toward(c, peers, count)
    ensures var c' := Passes(c, peers, count, accepts); Toward(c', peers, count) && Extends(c, c')
    decreases |accepts|
  {
    hide Bootstrapped, Toward;
    if accepts != [] {
      PassKeepsToward(c, peers, count, accepts[0]);
      PassesStayToward(Bootstrapped(c, peers, count, accepts[0]), peers, count, accepts[1..]);
    }
  }

  /** From the empty cluster, any number of passes with any refusals only fills in entries of one fixed goal.
      The controller stops exactly when the goal is reached, and one fully accepted pass reaches it. */
  lemma OneFixedPlacement(peers: Peers, count: nat, accepts: seq<Accept>, accept: Accept)
    requires peers != map[] && forall cmd :: accept(cmd)
    ensures var c := Passes(EMPTY, peers, count, accepts);
            && Toward(c, peers, count)
            && (Complete(c, peers, count) <==> c == Goal(peers, count))
            && Bootstrapped(c, peers, count, accept) == Goal(peers, count)
  {
    PassesStayToward(EMPTY, peers, count, accepts);
    var c := Passes(EMPTY, peers, count, accepts);
    CompleteIsGoal(c, peers, count);
    AcceptedPassCompletes(c, peers, count, accept);
  }

  lemma AcceptedFillCompletes(r: Cluster, peers: Peers, count: nat, accept: Accept)
    requires peers != map[] && Toward(r, peers, count) && forall cmd :: accept(cmd)
    ensures Filled(r, peers, count, count, accept).partitions == Placement(peers, count)
    ensures Filled(r, peers, count, count, accept).numPartitions == count
  {
    hide Place;
    var c' := Filled(r, peers, count, count, accept);
    assert Filling(r, peers, count, count, accept) == Placement(peers, count).Keys - r.partitions.Keys;
    assert c'.partitions == Placement(peers, count);
    FillingKeepsToward(r, peers, count, accept);
    assert count > 0 ==> 0 in c'.partitions;
  }

  lemma AcceptedPassCompletes(c: Cluster, peers: Peers, count: nat, accept: Accept)
    requires peers != map[] && Toward(c, peers, count) && forall cmd :: accept(cmd)
    ensures Bootstrapped(c, peers, count, accept) == Goal(peers, count)
  {
    CompleteIsGoal(c, peers, count);
    if !Complete(c, peers, count) {
      RegisteringKeepsToward(c, peers, count, accept);
      AcceptedFillCompletes(Registered(c, peers, accept), peers, count, accept);
      hide Registered, Placement, Roster, Filling;
    }
  }

  /** The goal, by counting: partition p is led by the peer that has p mod n peers before it in the order of ids, and
      followed by the one that has p + 1 mod n before it. */
  lemma GoalByRank(peers: Peers, count: nat, p: nat)
    requires peers != map[] && p < count
    ensures var c := Goal(peers, count);
            && p in c.partitions
            && var a := c.partitions[p];
            && a.leader in peers && |Before(peers.Keys, a.leader)| == p % |peers|
            && a.follower in peers && |Before(peers.Keys, a.follower)| == (p + 1) % |peers|
  {
    hide Before;
    var n := |peers|;
    DivStep(p, n);
    RankOfPeer(peers, p % n);
    RankOfPeer(peers, (p + 1) % n);
    hide SortedIds;
  }

  lemma RankOfPeer(peers: Peers, i: nat)
    requires i < |peers|
    ensures SortedIds(peers.Keys)[i] in peers && |Before(peers.Keys, SortedIds(peers.Keys)[i])| == i
  {
    var ids := SortedIds(peers.Keys);
    hide SortedIds, StrictlySorted, Before;
    assert ids[i] in ids;
    RankIsPlace(ids, i);
    assert Elements(ids) == peers.Keys;
  }

  // ----- balance -----

  /** How many of the k numbers from a on are i modulo n. */
  function Hits(a: nat, k: nat, n: nat, i: nat): nat
    requires n > 0
  {
    if k == 0 then 0 else Hits(a, k - 1, n, i) + if (a + k - 1) % n == i then 1 else 0
  }

  lemma {:induction false} HitsUpTo(k: nat, n: nat, i: nat)
    requires i < n
    ensures Hits(0, k, n, i) == k / n + if i < k % n then 1 else 0
  {
    if k > 0 {
      HitsUpTo(k - 1, n, i);
      DivStep(k - 1, n);
    }
  }

  lemma DivStep(k: nat, n: nat)
    requires n > 0
    ensures if k % n == n - 1 then (k + 1) / n == k / n + 1 && (k + 1) % n == 0
            else (k + 1) / n == k / n && (k + 1) % n == k % n + 1
  {
    var q, r := k / n, k % n;
    assert k == q * n + r;
    if r == n - 1 {
      assert k + 1 == (q + 1) * n;
      QuotientIs(k + 1, n, q + 1, 0);
    } else {
      QuotientIs(k + 1, n, q, r + 1);
    }
  }

  lemma {:induction false} HitsShift(k: nat, n: nat, i: nat)
    requires i < n
    ensures Hits(1, k, n, i) + (if i == 0 then 1 else 0) == Hits(0, k + 1, n, i)
  {
    if k > 0 {
      HitsShift(k - 1, n, i);
    }
  }

  /** The partitions a broker leads, and those it follows. */
  ghost function Leads(peers: Peers, count: nat, id: string): set<int>
    requires peers != map[]
  {
    set p: int | 0 <= p < count && Place(peers, p).leader == id
  }

  ghost function Follows(peers: Peers, count: nat, id: string): set<int>
    requires peers != map[]
  {
    set p: int | 0 <= p < count && Place(peers, p).follower == id
  }

  lemma SortedAreDistinct(ids: seq<string>, i: nat, j: nat)
    requires StrictlySorted(ids) && i < |ids| && j < |ids|
    ensures ids[i] == ids[j] <==> i == j
  {
    LessTotal(ids[i], ids[j]);
  }

  lemma OneMorePlace(peers: Peers, p: nat, id: string)
    requires peers != map[]
    ensures Leads(peers, p + 1, id) == Leads(peers, p, id) + if Place(peers, p).leader == id then {p} else {}
    ensures Follows(peers, p + 1, id) == Follows(peers, p, id) + if Place(peers, p).follower == id then {p} else {}
  {
    hide Place;
  }

  lemma PlaceIs(peers: Peers, p: nat, i: nat)
    requires peers != map[] && i < |peers|
    ensures Place(peers, p).leader == SortedIds(peers.Keys)[i] <==> p % |peers| == i
    ensures Place(peers, p).follower == SortedIds(peers.Keys)[i] <==> (p + 1) % |peers| == i
  {
    hide SortedIds, StrictlySorted;
    var ids := SortedIds(peers.Keys);
    SortedAreDistinct(ids, p % |peers|, i);
    SortedAreDistinct(ids, (p + 1) % |peers|, i);
  }

  lemma {:induction false} LeadsHits(peers: Peers, count: nat, i: nat)
    requires peers != map[] && i < |peers|
    ensures |Leads(peers, count, SortedIds(peers.Keys)[i])| == Hits(0, count, |peers|, i)
    ensures |Follows(peers, count, SortedIds(peers.Keys)[i])| == Hits(1, count, |peers|, i)
  {
    hide SortedIds, Place;
    var id := SortedIds(peers.Keys)[i];
    if count > 0 {
      LeadsHits(peers, count - 1, i);
      OneMorePlace(peers, count - 1, id);
      PlaceIs(peers, count - 1, i);
      assert count - 1 !in Leads(peers, count - 1, id) && count - 1 !in Follows(peers, count - 1, id);
    }
  }

  /** floor(count / n) or ceil(count / n). */
  predicate FairShare(k: nat, count: nat, n: nat)
    requires n > 0
  {
    count / n <= k <= (count + n - 1) / n
  }

  /** Every broker leads a fair share of the partitions, and follows a fair share. */
  lemma PlacementIsBalanced(peers: Peers, count: nat, i: nat)
    requires peers != map[] && i < |peers|
    ensures FairShare(|Leads(peers, count, SortedIds(peers.Keys)[i])|, count, |peers|)
    ensures FairShare(|Follows(peers, count, SortedIds(peers.Keys)[i])|, count, |peers|)
  {
    LeadsHits(peers, count, i);
    HitsAreFair(count, |peers|, i);
    hide *;
  }

  lemma HitsAreFair(k: nat, n: nat, i: nat)
    requires i < n
    ensures FairShare(Hits(0, k, n, i), k, n) && FairShare(Hits(1, k, n, i), k, n)
  {
    hide Hits;
    HitsUpTo(k, n, i);
    HitsShift(k, n, i);
    HitsUpTo(k + 1, n, i);
    DivStep(k, n);
    Ceil(k, n);
  }

  lemma Ceil(k: nat, n: nat)
    requires n > 0
    ensures (k + n - 1) / n == k / n + if k % n == 0 then 0 else 1
  {
    var q, r := k / n, k % n;
    if r == 0 {
      QuotientIs(k + n - 1, n, q, n - 1);
    } else {
      assert k + n - 1 == (q + 1) * n + (r - 1);
      QuotientIs(k + n - 1, n, q + 1, r - 1);
    }
  }
}
