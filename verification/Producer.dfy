/** The producer's batch mode: generated messages, one partition a key, chunks of bounded size. */
module Producer {
  import opened Basics
  import opened Naming

  type Hash32 = x: int | 0 <= x < 0x1_0000_0000

  /** The hash of a key is a parameter: everything here holds for every function to 32 bits. */
  type Hash = string -> Hash32

  /** The source takes the number of partitions modulo 2^32 and divides by it; it panics if that is 0. */
  predicate Usable(n: int) {
    n <= 1 || n % 0x1_0000_0000 != 0
  }

  /** The partition of a key. From 2^32 partitions on, only the first n modulo 2^32 are ever chosen. */
  function PartitionFor(hash: Hash, key: string, n: int): (p: int)
    requires Usable(n)
    ensures 0 <= p && (1 <= n ==> p < n)
    ensures n <= 1 ==> p == 0
    ensures 1 < n ==> p < n % 0x1_0000_0000
  {
    if n <= 1 then 0 else hash(key) % (n % 0x1_0000_0000)
  }

  /** The hash h leaves remainder p when divided by m. */
  ghost predicate Leaves(h: nat, m: nat, p: int) {
    0 <= p < m && exists q: nat :: Splits(h, m, q, p)
  }

  predicate Splits(h: nat, m: nat, q: nat, p: int) {
    h == q * m + p
  }

  /** Which keys belong to partition p of n: all to the only one, else those whose hash leaves remainder p. */
  ghost predicate Belongs(hash: Hash, key: string, n: int, p: int) {
    if n <= 1 then p == 0 else Leaves(hash(key), n % 0x1_0000_0000, p)
  }

  lemma PartitionIsRemainder(hash: Hash, key: string, n: int, p: int)
    requires Usable(n)
    ensures PartitionFor(hash, key, n) == p <==> Belongs(hash, key, n, p)
  {
    if n > 1 {
      var h, m := hash(key), n % 0x1_0000_0000;
      assert Splits(h, m, h / m, h % m);
      if q: nat :| 0 <= p < m && Splits(h, m, q, p) {
        QuotientIs(h, m, q, p);
      }
    }
  }

  datatype Message = Message(key: string, value: string)

  /** The i-th generated message. */
  function Generated(i: nat): Message {
    Message("k" + Itoa(i), "v" + Itoa(i))
  }

  function Messages(count: nat): (msgs: seq<Message>)
    ensures |msgs| == count
  {
    seq(count, i requires 0 <= i => Generated(i + 1))
  }

  /** The messages of one partition, in the order of the list. */
  function Bucket(hash: Hash, msgs: seq<Message>, n: int, p: int): seq<Message>
    requires Usable(n)
  {
    if msgs == [] then []
    else
      var last := msgs[|msgs| - 1];
      Bucket(hash, msgs[..|msgs| - 1], n, p) + if PartitionFor(hash, last.key, n) == p then [last] else []
  }

  lemma BucketSnoc(hash: Hash, msgs: seq<Message>, m: Message, n: int, p: int)
    requires Usable(n)
    ensures Bucket(hash, msgs + [m], n, p) ==
            Bucket(hash, msgs, n, p) + if PartitionFor(hash, m.key, n) == p then [m] else []
  {
    assert (msgs + [m])[..|msgs|] == msgs;
  }

  /** A partition's list picks, in order, exactly the messages whose key belongs there. */
  lemma {:induction false} BucketPicks(hash: Hash, msgs: seq<Message>, n: int, p: int) returns (at: seq<nat>)
    requires Usable(n)
    ensures |at| == |Bucket(hash, msgs, n, p)|
    ensures forall i :: 0 <= i < |at| ==> at[i] < |msgs| && Bucket(hash, msgs, n, p)[i] == msgs[at[i]]
    ensures forall i, j :: 0 <= i < j < |at| ==> at[i] < at[j]
    ensures forall k :: 0 <= k < |msgs| ==> (k in at <==> Belongs(hash, msgs[k].key, n, p))
  {
    if msgs == [] {
      at := [];
    } else {
      var init, last := msgs[..|msgs| - 1], msgs[|msgs| - 1];
      at := BucketPicks(hash, init, n, p);
      BucketSnoc(hash, init, last, n, p);
      PartitionIsRemainder(hash, last.key, n, p);
      hide Bucket, PartitionFor, Belongs, Usable;
      assert msgs == init + [last];
      if PartitionFor(hash, last.key, n) == p {
        at := at + [|msgs| - 1];
      }
    }
  }

  lemma MembersBelong(hash: Hash, msgs: seq<Message>, n: int, p: int, m: Message)
    requires Usable(n)
    ensures m in Bucket(hash, msgs, n, p) <==> m in msgs && Belongs(hash, m.key, n, p)
  {
    var at := BucketPicks(hash, msgs, n, p);
    var list := Bucket(hash, msgs, n, p);
    hide Bucket, Belongs, Usable;
    if m in list {
      var i :| 0 <= i < |list| && list[i] == m;
      assert at[i] in at;
    }
    if m in msgs && Belongs(hash, m.key, n, p) {
      var k :| 0 <= k < |msgs| && msgs[k] == m;
      var i :| 0 <= i < |at| && at[i] == k;
      assert list[i] == m;
    }
  }

  /** What the generator makes. */
  lemma MessagesLookLike()
    ensures Messages(2) == [Message("k1", "v1"), Message("k2", "v2")]
  {
    assert Digits(1) == "" + [Digit(1)] && Digits(2) == "" + [Digit(2)];
    assert Generated(1) == Message("k1", "v1") && Generated(2) == Message("k2", "v2");
    hide Generated;
    assert Messages(2) == [Generated(1), Generated(2)];
  }

  // ----- sends -----

  /** One ProduceBatch call of the client that succeeded. */
  datatype Send = Send(partition: int, chunk: seq<Message>)

  /** Everything sent to partition p, in order. */
  function Delivered(sends: seq<Send>, p: int): seq<Message> {
    if sends == [] then []
    else
      var last := sends[|sends| - 1];
      Delivered(sends[..|sends| - 1], p) + if last.partition == p then last.chunk else []
  }

  lemma DeliveredSnoc(sends: seq<Send>, s: Send, p: int)
    ensures Delivered(sends + [s], p) == Delivered(sends, p) + if s.partition == p then s.chunk else []
  {
    assert (sends + [s])[..|sends|] == sends;
  }

  function Ceil(k: nat, b: nat): nat
    requires b > 0
  {
    (k + b - 1) / b
  }

  lemma CeilStep(k: nat, b: nat)
    requires 0 < b
    ensures k > b ==> Ceil(k, b) == Ceil(k - b, b) + 1
    ensures 0 < k <= b ==> Ceil(k, b) == 1
    ensures Ceil(0, b) == 0
  {
    QuotientIs(b - 1, b, 0, b - 1);
    if k > b {
      var q, r := (k - 1) / b, (k - 1) % b;
      assert k + b - 1 == (q + 1) * b + r;
      QuotientIs(k + b - 1, b, q + 1, r);
    } else if k > 0 {
      QuotientIs(k + b - 1, b, 1, k - 1);
    }
  }

  /** The calls all partitions below n need. */
  function CallsNeeded(hash: Hash, msgs: seq<Message>, n: nat, upTo: nat, b: nat): nat
    requires Usable(n) && b > 0
  {
    if upTo == 0 then 0 else CallsNeeded(hash, msgs, n, upTo - 1, b) + Ceil(|Bucket(hash, msgs, n, upTo - 1)|, b)
  }

  function Sizes(hash: Hash, msgs: seq<Message>, n: nat, upTo: nat): nat
    requires Usable(n)
  {
    if upTo == 0 then 0 else Sizes(hash, msgs, n, upTo - 1) + |Bucket(hash, msgs, n, upTo - 1)|
  }

  lemma {:induction false} SizesSnoc(hash: Hash, msgs: seq<Message>, m: Message, n: nat, upTo: nat)
    requires Usable(n)
    ensures Sizes(hash, msgs + [m], n, upTo) ==
            Sizes(hash, msgs, n, upTo) + if PartitionFor(hash, m.key, n) < upTo then 1 else 0
  {
    if upTo > 0 {
      SizesSnoc(hash, msgs, m, n, upTo - 1);
      BucketSnoc(hash, msgs, m, n, upTo - 1);
    }
  }

  lemma {:induction false} SizesOfNone(hash: Hash, n: nat, upTo: nat)
    requires Usable(n)
    ensures Sizes(hash, [], n, upTo) == 0
  {
    if upTo > 0 {
      SizesOfNone(hash, n, upTo - 1);
    }
  }

  /** Every message is in exactly one bucket. */
  lemma {:induction false} BucketsPartition(hash: Hash, msgs: seq<Message>, n: nat)
    requires 1 <= n && Usable(n)
    ensures Sizes(hash, msgs, n, n) == |msgs|
  {
    if msgs == [] {
      SizesOfNone(hash, n, n);
    } else {
      var init, last := msgs[..|msgs| - 1], msgs[|msgs| - 1];
      BucketsPartition(hash, init, n);
      SizesSnoc(hash, init, last, n, n);
      assert msgs == init + [last];
    }
  }

  // ----- publishing -----

  /** How many messages a count asks for. */
  function Asked(count: int): nat {
    if count < 0 then 0 else count
  }

  /** What a partition maps to: like the source's map, nothing stored reads as the empty list. */
  function Stored(byPart: map<int, seq<Message>>, p: int): seq<Message> {
    if p in byPart then byPart[p] else []
  }

  ghost predicate Sorted(byPart: map<int, seq<Message>>, hash: Hash, msgs: seq<Message>, n: int)
    requires Usable(n)
  {
    forall p: int :: Stored(byPart, p) == Bucket(hash, msgs, n, p)
  }

  lemma SortedOfNone(hash: Hash, n: int)
    requires Usable(n)
    ensures Sorted(map[], hash, Messages(0), n)
  {
    hide Generated, PartitionFor;
    assert Messages(0) == [];
  }

  lemma SortedSnoc(byPart: map<int, seq<Message>>, hash: Hash, msgs: seq<Message>, m: Message, n: int)
    requires Usable(n) && Sorted(byPart, hash, msgs, n)
    ensures var p := PartitionFor(hash, m.key, n);
            Sorted(byPart[p := Stored(byPart, p) + [m]], hash, msgs + [m], n)
  {
    hide Bucket, PartitionFor;
    var p := PartitionFor(hash, m.key, n);
    forall q: int
      ensures Stored(byPart[p := Stored(byPart, p) + [m]], q) == Bucket(hash, msgs + [m], n, q)
    {
      BucketSnoc(hash, msgs, m, n, q);
    }
  }

  lemma MessagesSnoc(i: nat)
    ensures Messages(i + 1) == Messages(i) + [Generated(i + 1)]
  {
    hide Generated;
  }

  /** Generates the messages and sorts them into partitions. */
  method SortIntoPartitions(hash: Hash, count: int, n: int) returns (byPart: map<int, seq<Message>>)
    requires 1 <= n && Usable(n)
    ensures Sorted(byPart, hash, Messages(Asked(count)), n)
  {
    hide Bucket, PartitionFor, Generated, Sorted, Messages, Usable;
    byPart := map[];
    var i := 1;
    SortedOfNone(hash, n);
    while i <= count
      invariant 1 <= i <= Asked(count) + 1
      invariant Sorted(byPart, hash, Messages(i - 1), n)
    {
      byPart := AddMessage(byPart, hash, i, n);
      i := i + 1;
    }
  }

  /** Generates message i and puts it behind the earlier ones of its partition. */
  method AddMessage(byPart0: map<int, seq<Message>>, hash: Hash, i: nat, n: int) returns (byPart: map<int, seq<Message>>)
    requires 1 <= i && Usable(n) && Sorted(byPart0, hash, Messages(i - 1), n)
    ensures Sorted(byPart, hash, Messages(i), n)
  {
    hide *;
    var m := Generated(i);
    var p := PartitionFor(hash, m.key, n);
    SortedSnoc(byPart0, hash, Messages(i - 1), m, n);
    MessagesSnoc(i - 1);
    byPart := byPart0[p := Stored(byPart0, p) + [m]];
  }

  /** What sending one partition adds: the first `sent` of its messages, to it alone, in fair chunks. */
  ghost predicate Added(sends0: seq<Send>, sends: seq<Send>, p: int, recs: seq<Message>, sent: nat, b: nat)
    requires sent <= |recs|
  {
    && Delivered(sends, p) == Delivered(sends0, p) + recs[..sent]
    && (forall q :: q != p ==> Delivered(sends, q) == Delivered(sends0, q))
    && (forall s :: s in sends ==> s in sends0 || (s.partition == p && 0 < |s.chunk| <= b))
  }

  lemma AddChunk(sends0: seq<Send>, sends: seq<Send>, p: int, recs: seq<Message>, sent: nat, end: nat, b: nat)
    requires sent < end <= |recs| && end - sent <= b && Added(sends0, sends, p, recs, sent, b)
    ensures Added(sends0, sends + [Send(p, recs[sent..end])], p, recs, end, b)
  {
    hide Delivered;
    var s := Send(p, recs[sent..end]);
    DeliveredSnoc(sends, s, p);
    assert recs[..sent] + s.chunk == recs[..end];
    forall q | q != p
      ensures Delivered(sends + [s], q) == Delivered(sends0, q)
    {
      DeliveredSnoc(sends, s, q);
    }
  }

  /** The sends after sends0 are all to p, and all of full size but perhaps the last. */
  ghost predicate NewOnes(sends0: seq<Send>, sends: seq<Send>, p: int, b: nat, allFull: bool) {
    && sends0 <= sends
    && forall i :: |sends0| <= i < |sends| ==> sends[i].partition == p && (allFull || i < |sends| - 1 ==> |sends[i].chunk| == b)
  }

  lemma NoNewOnes(sends: seq<Send>, p: int, b: nat)
    ensures NewOnes(sends, sends, p, b, true)
  {
  }

  lemma NewOne(sends0: seq<Send>, sends: seq<Send>, p: int, b: nat, chunk: seq<Message>)
    requires NewOnes(sends0, sends, p, b, true)
    ensures NewOnes(sends0, sends + [Send(p, chunk)], p, b, |chunk| == b) && NewOnes(sends0, sends, p, b, false)
    ensures NewOnes(sends0, sends + [Send(p, chunk)], p, b, false)
  {
  }

  /** Partitions are served one after the other below p, each in chunks of full size but perhaps its last. */
  ghost predicate Orderly(sends: seq<Send>, b: nat, p: int) {
    && (forall i :: 0 <= i < |sends| ==> sends[i].partition < p)
    && (forall i, j :: 0 <= i < j < |sends| ==> sends[i].partition <= sends[j].partition)
    && (forall i :: 0 <= i < |sends| - 1 && sends[i].partition == sends[i + 1].partition ==> |sends[i].chunk| == b)
  }

  lemma OrderlyMore(sends0: seq<Send>, sends: seq<Send>, b: nat, p: int)
    requires Orderly(sends0, b, p) && NewOnes(sends0, sends, p, b, false)
    ensures Orderly(sends, b, p + 1)
  {
    forall i | 0 <= i < |sends|
      ensures sends[i].partition <= p && (i < |sends0| ==> sends[i] == sends0[i])
    {
    }
  }

  lemma OrderlyWider(sends: seq<Send>, b: nat, p: int, q: int)
    requires Orderly(sends, b, p) && p <= q
    ensures Orderly(sends, b, q)
  {
  }

  /** Sends the messages of one partition chunk by chunk. The k-th call of the run succeeds when accept(k). */
  method SendPartition(p: int, recs: seq<Message>, b: nat, accept: nat -> bool, sends0: seq<Send>, total0: nat, rpcs0: nat)
    returns (sends: seq<Send>, total: nat, rpcs: nat, ok: bool)
    requires b > 0
    ensures exists sent :: 0 <= sent <= |recs| && Added(sends0, sends, p, recs, sent, b) && (!ok ==> sent < |recs|)
    ensures NewOnes(sends0, sends, p, b, false)
    ensures rpcs0 <= rpcs && (forall k :: rpcs0 <= k < rpcs ==> accept(k)) && (!ok ==> !accept(rpcs))
    ensures ok ==> Added(sends0, sends, p, recs, |recs|, b)
    ensures ok ==> total == total0 + |recs| && rpcs == rpcs0 + Ceil(|recs|, b)
    ensures |sends| - |sends0| == rpcs - rpcs0
    ensures (forall k :: accept(k)) ==> ok
  {
    sends, total, rpcs := sends0, total0, rpcs0;
    var start := 0;
    ghost var sent := 0;
    assert recs[..0] == [];
    CeilStep(|recs|, b);
    AddNothing(sends0, p, recs, b);
    NoNewOnes(sends0, p, b);
    NewOne(sends0, sends, p, b, []);
    hide Delivered, Ceil, Added, NewOnes;
    while start < |recs|
      invariant NewOnes(sends0, sends, p, b, false) && (start < |recs| ==> NewOnes(sends0, sends, p, b, true))
      invariant rpcs0 <= rpcs && forall k :: rpcs0 <= k < rpcs ==> accept(k)
      invariant sent == (if start < |recs| then start else |recs|)
      invariant Added(sends0, sends, p, recs, sent, b)
      invariant total == total0 + sent && rpcs + Ceil(|recs| - sent, b) == rpcs0 + Ceil(|recs|, b)
      invariant |sends| - |sends0| == rpcs - rpcs0
      decreases |recs| - start
    {
      var end := start + b;
      if end > |recs| {
        end := |recs|;
      }
      var chunk := recs[start..end];
      if !accept(rpcs) {
        return sends, total, rpcs, false;
      }
      NewOne(sends0, sends, p, b, chunk);
      AddChunk(sends0, sends, p, recs, start, end, b);
      CeilStep(|recs| - start, b);
      CeilStep(0, b);
      rpcs := rpcs + 1;
      total := total + |chunk|;
      sends := sends + [Send(p, chunk)];
      sent := end;
      start := start + b;
    }
    CeilStep(0, b);
    ok := true;
  }

  lemma AddNothing(sends: seq<Send>, p: int, recs: seq<Message>, b: nat)
    ensures Added(sends, sends, p, recs, 0, b)
  {
  }

  /** Every partition below p has received its messages, and no other partition anything. */
  ghost predicate Served(hash: Hash, msgs: seq<Message>, n: nat, b: nat, sends: seq<Send>, p: nat)
    requires Usable(n)
  {
    && (forall s :: s in sends ==> 0 <= s.partition < n && 0 < |s.chunk| <= b)
    && (forall q :: 0 <= q < p && q < n ==> Delivered(sends, q) == Bucket(hash, msgs, n, q))
    && (forall q :: p <= q < n ==> Delivered(sends, q) == [])
  }

  /** Every partition has received a prefix of its messages. */
  ghost predicate PrefixesSent(hash: Hash, msgs: seq<Message>, n: nat, b: nat, sends: seq<Send>)
    requires Usable(n)
  {
    && (forall s :: s in sends ==> 0 <= s.partition < n && 0 < |s.chunk| <= b)
    && (forall q :: 0 <= q < n ==> Delivered(sends, q) <= Bucket(hash, msgs, n, q))
  }

  lemma ServeOne(hash: Hash, msgs: seq<Message>, n: nat, b: nat, sends0: seq<Send>, sends: seq<Send>, p: nat, sent: nat)
    requires p < n && Usable(n) && b > 0 && Served(hash, msgs, n, b, sends0, p)
    requires sent <= |Bucket(hash, msgs, n, p)| && Added(sends0, sends, p, Bucket(hash, msgs, n, p), sent, b)
    ensures PrefixesSent(hash, msgs, n, b, sends)
    ensures sent == |Bucket(hash, msgs, n, p)| ==> Served(hash, msgs, n, b, sends, p + 1)
  {
    hide Delivered, Bucket;
    var recs := Bucket(hash, msgs, n, p);
    assert Delivered(sends, p) == recs[..sent];
    assert recs[..|recs|] == recs;
  }

  lemma ServedIsSent(hash: Hash, msgs: seq<Message>, n: nat, b: nat, sends: seq<Send>)
    requires Usable(n) && Served(hash, msgs, n, b, sends, n)
    ensures PrefixesSent(hash, msgs, n, b, sends)
  {
  }

  /** The state of the loop over partitions before partition p. */
  ghost predicate Progress(hash: Hash, msgs: seq<Message>, n: nat, b: nat, sends: seq<Send>, p: nat, total: nat, rpcs: nat)
    requires Usable(n) && b > 0
  {
    && Served(hash, msgs, n, b, sends, p)
    && rpcs == |sends| == CallsNeeded(hash, msgs, n, p, b)
    && total == Sizes(hash, msgs, n, p)
  }

  lemma NoProgress(hash: Hash, msgs: seq<Message>, n: nat, b: nat)
    requires Usable(n) && b > 0
    ensures Progress(hash, msgs, n, b, [], 0, 0, 0) && Orderly([], b, 0)
  {
  }

  lemma MakeProgress(hash: Hash, msgs: seq<Message>, n: nat, b: nat,
                     sends0: seq<Send>, total0: nat, rpcs0: nat, sends: seq<Send>, total: nat, rpcs: nat, p: nat)
    requires p < n && Usable(n) && b > 0 && Progress(hash, msgs, n, b, sends0, p, total0, rpcs0)
    requires var recs := Bucket(hash, msgs, n, p);
             && Added(sends0, sends, p, recs, |recs|, b)
             && total == total0 + |recs| && rpcs == rpcs0 + Ceil(|recs|, b) && |sends| - |sends0| == rpcs - rpcs0
    ensures Progress(hash, msgs, n, b, sends, p + 1, total, rpcs)
  {
    hide Served, Added, Bucket, Ceil;
    ServeOne(hash, msgs, n, b, sends0, sends, p, |Bucket(hash, msgs, n, p)|);
  }

  lemma ProgressDone(hash: Hash, msgs: seq<Message>, n: nat, b: nat, sends: seq<Send>, total: nat, rpcs: nat)
    requires 1 <= n && Usable(n) && b > 0 && Progress(hash, msgs, n, b, sends, n, total, rpcs)
    ensures Served(hash, msgs, n, b, sends, n) && PrefixesSent(hash, msgs, n, b, sends)
    ensures rpcs == |sends| == CallsNeeded(hash, msgs, n, n, b) && total == |msgs|
  {
    hide Served, PrefixesSent, CallsNeeded, Sizes;
    BucketsPartition(hash, msgs, n);
    ServedIsSent(hash, msgs, n, b, sends);
  }

  lemma BucketOf(byPart: map<int, seq<Message>>, hash: Hash, msgs: seq<Message>, n: int, p: int)
    requires Usable(n) && Sorted(byPart, hash, msgs, n)
    ensures Stored(byPart, p) == Bucket(hash, msgs, n, p)
  {
  }

  lemma ProgressServed(hash: Hash, msgs: seq<Message>, n: nat, b: nat, sends: seq<Send>, p: nat, total: nat, rpcs: nat)
    requires Usable(n) && b > 0 && Progress(hash, msgs, n, b, sends, p, total, rpcs)
    ensures Served(hash, msgs, n, b, sends, p)
  {
  }

  /** The run ended within partition p: the ones before it have all their messages, p some first ones, the later ones none. */
  ghost predicate StoppedIn(hash: Hash, msgs: seq<Message>, n: nat, sends: seq<Send>, p: nat)
    requires Usable(n)
  {
    && p < n
    && (forall q :: 0 <= q < p ==> Delivered(sends, q) == Bucket(hash, msgs, n, q))
    && Delivered(sends, p) < Bucket(hash, msgs, n, p)
    && (forall q :: p < q < n ==> Delivered(sends, q) == [])
  }

  lemma StopsIn(hash: Hash, msgs: seq<Message>, n: nat, b: nat, sends0: seq<Send>, sends: seq<Send>, p: nat, sent: nat)
    requires p < n && Usable(n) && Served(hash, msgs, n, b, sends0, p)
    requires sent < |Bucket(hash, msgs, n, p)| && Added(sends0, sends, p, Bucket(hash, msgs, n, p), sent, b)
    ensures StoppedIn(hash, msgs, n, sends, p)
  {
    hide Delivered, Bucket, Usable;
    assert Delivered(sends, p) == Bucket(hash, msgs, n, p)[..sent];
  }

  /** A message is in what partition p received exactly when it was generated and its key belongs there. */
  ghost predicate EachWhereItBelongs(hash: Hash, msgs: seq<Message>, n: nat, sends: seq<Send>) {
    forall p, m :: 0 <= p < n ==> (m in Delivered(sends, p) <==> m in msgs && Belongs(hash, m.key, n, p))
  }

  lemma ServedWhereItBelongs(hash: Hash, msgs: seq<Message>, n: nat, b: nat, sends: seq<Send>)
    requires Usable(n) && Served(hash, msgs, n, b, sends, n)
    ensures EachWhereItBelongs(hash, msgs, n, sends)
  {
    hide Bucket, Delivered, Belongs, Usable;
    forall p, m | 0 <= p < n
      ensures m in Delivered(sends, p) <==> m in msgs && Belongs(hash, m.key, n, p)
    {
      MembersBelong(hash, msgs, n, p, m);
    }
  }

  /** Publishes `count` generated messages. When every call succeeds, each partition receives exactly its messages in
      generation order, in chunks of the batch size and one rest, partition after partition; the first call that fails
      is the last one made. */
  method PublishBatch(hash: Hash, count: int, n: int, batchSize: int, accept: nat -> bool)
    returns (sends: seq<Send>, total: nat, rpcs: nat, ok: bool)
    requires 1 <= n && Usable(n)
    ensures var msgs := Messages(Asked(count));
            var b := if batchSize < 1 then 1 else batchSize;
            && PrefixesSent(hash, msgs, n, b, sends)
            && (ok ==> Served(hash, msgs, n, b, sends, n) && EachWhereItBelongs(hash, msgs, n, sends))
            && (ok ==> rpcs == CallsNeeded(hash, msgs, n, n, b) && total == Asked(count))
            && (!ok ==> exists p: nat :: StoppedIn(hash, msgs, n, sends, p))
            && Orderly(sends, b, n)
    ensures rpcs == |sends| && (forall k :: 0 <= k < rpcs ==> accept(k)) && (!ok ==> !accept(rpcs))
  {
    var b := if batchSize < 1 then 1 else batchSize;
    hide *;
    assert b > 0;
    var byPart := SortIntoPartitions(hash, count, n);
    ghost var msgs := Messages(Asked(count));
    sends, total, rpcs, ok := [], 0, 0, true;
    var p := 0;
    NoProgress(hash, msgs, n, b);
    while p < n
      invariant 0 <= p <= n && rpcs == |sends|
      invariant ok && Progress(hash, msgs, n, b, sends, p, total, rpcs) && Orderly(sends, b, p)
      invariant forall k :: 0 <= k < rpcs ==> accept(k)
    {
      var recs := Stored(byPart, p);
      BucketOf(byPart, hash, msgs, n, p);
      ghost var sends0, total0, rpcs0 := sends, total, rpcs;
      sends, total, rpcs, ok := SendPartition(p, recs, b, accept, sends, total, rpcs);
      OrderlyMore(sends0, sends, b, p);
      if !ok {
        ghost var sent :| 0 <= sent < |recs| && Added(sends0, sends, p, recs, sent, b);
        ProgressServed(hash, msgs, n, b, sends0, p, total0, rpcs0);
        ServeOne(hash, msgs, n, b, sends0, sends, p, sent);
        StopsIn(hash, msgs, n, b, sends0, sends, p, sent);
        OrderlyWider(sends, b, p + 1, n);
        return;
      }
      MakeProgress(hash, msgs, n, b, sends0, total0, rpcs0, sends, total, rpcs, p);
      p := p + 1;
    }
    ProgressDone(hash, msgs, n, b, sends, total, rpcs);
    ServedWhereItBelongs(hash, msgs, n, b, sends);
  }
}
