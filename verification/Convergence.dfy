/** What a reconcile pass achieves when raft accepts its commands. */
module Convergence {
  import opened Ids
  import opened Metadata
  import opened Controller

  function AcceptAll(): Accept {
    (cmd: Command) => true
  }

  /** Every partition number lies below the number of partitions. */
  predicate InRange(c: Cluster) {
    forall p :: p in c.partitions ==> 0 <= p < c.numPartitions
  }

  predicate AllWork(c: Cluster, alive: set<string>) {
    forall p :: p in c.partitions ==> !Broken(c.partitions[p], alive)
  }

  /** After one accepted pass the down marks of the registered brokers say exactly who is dead. */
  lemma MarksAreExact(c: Cluster, alive: set<string>)
    requires alive <= c.brokers.Keys
    ensures var m := Marked(c, alive, AcceptAll());
            && m.brokers == c.brokers && m.partitions == c.partitions && m.numPartitions == c.numPartitions
            && m.down * c.brokers.Keys == c.brokers.Keys - alive
            && m.down - c.brokers.Keys == c.down - c.brokers.Keys
            && Mismatches(m, alive) == {}
  {
  }

  lemma PassRepairs(m: Cluster, alive: set<string>, p: int)
    requires "" !in alive && alive != {} && alive <= m.brokers.Keys - m.down
    requires p in m.partitions && 0 <= p < m.numPartitions
    ensures !Broken(RepairedOne(m, alive, AcceptAll(), p), alive)
    ensures Broken(m.partitions[p], alive) ==>
              (RepairedOne(m, alive, AcceptAll(), p).follower == "" <==> alive == {RepairedOne(m, alive, AcceptAll(), p).leader})
  {
    var a := m.partitions[p];
    var w := Wanted(m, alive, a);
    var x :| x in alive;
    if Broken(a, alive) {
      assert x in m.brokers && x !in m.down;
      WantedWorks(m, alive, a);
      if w.follower == "" {
        assert forall y :: y in alive ==> y == w.leader;
      }
    }
  }

  lemma WorkingIsQuiet(c: Cluster, alive: set<string>, accept: Accept)
    requires Mismatches(c, alive) == {} && AllWork(c, alive)
    ensures Quiet(c, alive, accept)
  {
    var m := Marked(c, alive, accept);
    forall id | id in c.brokers
      ensures id !in Flipped(c, alive, accept)
    {
      assert id !in Mismatches(c, alive);
    }
    assert m.down == c.down;
  }

  /** One accepted pass makes the down marks exact. It leaves every assigned partition with a live leader and a
      follower that is live or empty exactly when some registered broker was probed alive, or nothing is
      assigned; a follower it chose is empty only if the leader is the sole survivor; and once all partitions
      work, a second pass with the same probes sends nothing, whatever raft would answer. */
  lemma ReconcileConverges(c: Cluster, probe: set<string>, accept: Accept)
    requires "" !in c.brokers && InRange(c)
    ensures var alive := probe * c.brokers.Keys;
            var c' := Reconciled(c, probe, AcceptAll());
            && c'.brokers == c.brokers && c'.partitions.Keys == c.partitions.Keys && InRange(c')
            && c'.down * c.brokers.Keys == c.brokers.Keys - alive
            && (AllWork(c', alive) <==> alive != {} || c.partitions == map[])
            && (alive != {} ==>
                  forall p :: p in c'.partitions ==>
                    c'.partitions[p].leader in alive && (c'.partitions[p].follower == "" || c'.partitions[p].follower in alive))
            && (AllWork(c', alive) ==> Quiet(c', alive, accept))
            && (alive != {} ==>
                  forall p :: p in c.partitions && Broken(c.partitions[p], alive) ==>
                    (c'.partitions[p].follower == "" <==> alive == {c'.partitions[p].leader}))
  {
    var alive := probe * c.brokers.Keys;
    var m := Marked(c, alive, AcceptAll());
    var c' := Reconciled(c, probe, AcceptAll());
    MarksAreExact(c, alive);
    hide Flipped, Wanted, Quiet;
    assert Mismatches(c', alive) == Mismatches(m, alive);
    if alive != {} {
      assert alive <= m.brokers.Keys - m.down;
      forall p | p in c.partitions
        ensures !Broken(c'.partitions[p], alive)
        ensures Broken(c.partitions[p], alive) ==>
                  (c'.partitions[p].follower == "" <==> alive == {c'.partitions[p].leader})
      {
        PassRepairs(m, alive, p);
      }
    } else if c.partitions != map[] {
      var p :| p in c.partitions;
      assert Broken(c'.partitions[p], alive);
    }
    if AllWork(c', alive) {
      WorkingIsQuiet(c', alive, accept);
    }
  }

  /** One pass leaves a partition with a live leader and no follower as it is. */
  lemma EmptyFollowerIsLeftAlone(c: Cluster, probe: set<string>, accept: Accept, p: int)
    requires p in c.partitions && c.partitions[p].follower == "" && c.partitions[p].leader in probe * c.brokers.Keys
    ensures p in Reconciled(c, probe, accept).partitions
    ensures Reconciled(c, probe, accept).partitions[p] == c.partitions[p]
  {
  }

  /** A pass of some controller on the current state: what it probed alive, and what raft accepted. */
  datatype Pass = Pass(probe: set<string>, accept: Accept)

  ghost function ReconciledBy(c: Cluster, passes: seq<Pass>): Cluster
    decreases |passes|
  {
    if passes == [] then c else ReconciledBy(Reconciled(c, passes[0].probe, passes[0].accept), passes[1..])
  }

  /** No number of passes on current states, with any refusals, gives such a partition a follower again, as long as
      every one of them finds its leader alive. A pass that still works on an older state may. */
  lemma {:induction false} EmptyFollowerStaysEmpty(c: Cluster, passes: seq<Pass>, p: int)
    requires p in c.partitions && c.partitions[p].follower == "" && c.partitions[p].leader in c.brokers
    requires forall pass :: pass in passes ==> c.partitions[p].leader in pass.probe
    ensures p in ReconciledBy(c, passes).partitions
    ensures ReconciledBy(c, passes).partitions[p] == c.partitions[p]
    decreases |passes|
  {
    if passes != [] {
      var c' := Reconciled(c, passes[0].probe, passes[0].accept);
      EmptyFollowerIsLeftAlone(c, passes[0].probe, passes[0].accept, p);
      assert c'.brokers == c.brokers;
      hide Reconciled;
      EmptyFollowerStaysEmpty(c', passes[1..], p);
    }
  }

  /** However many commands are refused, a pass replaces only a leader that was probed dead, and by its follower
      whenever that one was probed alive. Whatever assignment it changes, it changes to two live brokers, or to a
      live one alone. */
  lemma OnlyDeadLeadersAreReplaced(c: Cluster, probe: set<string>, accept: Accept, p: int)
    requires "" !in c.brokers && p in c.partitions
    ensures var alive := probe * c.brokers.Keys;
            var c' := Reconciled(c, probe, accept);
            && p in c'.partitions
            && var a, a' := c.partitions[p], c'.partitions[p];
            && (a'.leader != a.leader ==>
                  a.leader !in alive && (a.follower in alive ==> a'.leader == a.follower))
            && (a' != a ==>
                  a'.leader in alive && a'.leader != a'.follower && (a'.follower == "" || a'.follower in alive))
  {
    hide Flipped, Pick;
    var alive := probe * c.brokers.Keys;
    var m := Marked(c, alive, accept);
    if Repairs(m, alive, p) {
      WantedWorks(m, alive, c.partitions[p]);
    }
  }

  /** Which survivors a pass chooses, under any refusals: whoever else is registered, alive and not marked down comes
      after them in the order of ids. A leader is chosen only when leader and follower are both dead; a follower is
      always chosen anew, and left empty only if there is nobody. */
  lemma SurvivorsAreLeast(c: Cluster, probe: set<string>, accept: Accept, p: int, x: string)
    requires "" !in c.brokers && p in c.partitions
    ensures var alive := probe * c.brokers.Keys;
            var c' := Reconciled(c, probe, accept);
            && p in c'.partitions
            && var a, a' := c.partitions[p], c'.partitions[p];
            (a' != a && x in alive && x !in c'.down ==>
               && (a.leader !in alive && a.follower !in alive ==> x == a'.leader || Less(a'.leader, x))
               && (x != a'.leader ==> a'.follower != "" && (x == a'.follower || Less(a'.follower, x))))
  {
    hide Flipped, Pick;
    var alive := probe * c.brokers.Keys;
    var m := Marked(c, alive, accept);
    var w := Wanted(m, alive, c.partitions[p]);
    if Repairs(m, alive, p) && x in alive && x !in m.down {
      PickIsLeast(m, alive, "", x);
      if x != w.leader {
        PickIsLeast(m, alive, w.leader, x);
      }
    }
  }

  /** Survivors that are chosen are registered, alive and not marked down; a working assignment is never touched. */
  lemma OnlyBrokenOnesChange(c: Cluster, probe: set<string>, accept: Accept, p: int)
    requires "" !in c.brokers && p in c.partitions
    ensures var alive := probe * c.brokers.Keys;
            var c' := Reconciled(c, probe, accept);
            && p in c'.partitions
            && var a, a' := c.partitions[p], c'.partitions[p];
            (a' != a ==>
               && (a.leader !in alive || (a.follower != "" && a.follower !in alive))
               && (a.leader !in alive && a.follower !in alive ==> a'.leader in alive - c'.down)
               && (a'.follower == "" || a'.follower in alive - c'.down))
  {
    hide Flipped;
    var alive := probe * c.brokers.Keys;
    var m := Marked(c, alive, accept);
    assert "" !in alive;
  }
}
