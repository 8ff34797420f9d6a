/** Broker ids in their canonical order: the sorted list of a set of strings does not depend on
    the order in which a map is walked. */
module Ids {

  predicate Less(a: string, b: string) {
    if a == "" || b == "" then a == "" && b != ""
    else a[0] < b[0] || (a[0] == b[0] && Less(a[1..], b[1..]))
  }

  /** The strings are alike up to k, where the first one ends or has the smaller character. */
  predicate FirstDifference(a: string, b: string, k: nat) {
    k < |b| && k <= |a| && a[..k] == b[..k] && (k == |a| || a[k] < b[k])
  }

  /** The order is the alphabetical one. */
  lemma {:induction false} LessIsAlphabetical(a: string, b: string)
    ensures Less(a, b) <==> exists k: nat :: FirstDifference(a, b, k)
  {
    if a == "" || b == "" {
      assert b != "" ==> FirstDifference("", b, 0);
    } else if a[0] == b[0] {
      var x, y := a[1..], b[1..];
      LessIsAlphabetical(x, y);
      if k: nat :| FirstDifference(x, y, k) {
        assert a[..k + 1] == [a[0]] + x[..k] && b[..k + 1] == [b[0]] + y[..k];
        assert FirstDifference(a, b, k + 1);
      }
      if k: nat :| FirstDifference(a, b, k) {
        assert k > 0;
        assert x[..k - 1] == a[..k][1..] && y[..k - 1] == b[..k][1..];
        assert FirstDifference(x, y, k - 1);
      }
    } else {
      if a[0] < b[0] {
        assert FirstDifference(a, b, 0);
      }
      if k: nat :| FirstDifference(a, b, k) {
        assert k > 0 ==> a[..k][0] == b[..k][0];
      }
    }
  }

  lemma {:induction false} LessTotal(a: string, b: string)
    ensures a != b <==> Less(a, b) || Less(b, a)
    ensures !(Less(a, b) && Less(b, a))
  {
    if a != "" && b != "" {
      LessTotal(a[1..], b[1..]);
      assert a == [a[0]] + a[1..] && b == [b[0]] + b[1..];
    }
  }

  lemma {:induction false} LessTransitive(a: string, b: string, c: string)
    requires Less(a, b) && Less(b, c)
    ensures Less(a, c)
  {
    if a != "" && a[0] == b[0] == c[0] {
      LessTransitive(a[1..], b[1..], c[1..]);
    }
  }

  predicate StrictlySorted(s: seq<string>) {
    forall i, j :: 0 <= i < j < |s| ==> Less(s[i], s[j])
  }

  function Elements(s: seq<string>): set<string> {
    set x | x in s
  }

  /** The ids that come before id in the order. */
  function Before(ids: set<string>, id: string): set<string> {
    set x | x in ids && Less(x, id)
  }

  lemma {:induction false} SizeOfStrict(s: seq<string>)
    requires StrictlySorted(s)
    ensures |Elements(s)| == |s|
  {
    if s != [] {
      var init, last := s[..|s| - 1], s[|s| - 1];
      SizeOfStrict(init);
      LastIsNew(s);
      hide Less, StrictlySorted;
      assert s == init + [last];
      assert Elements(s) == Elements(init) + {last};
    }
  }

  lemma LastIsNew(s: seq<string>)
    requires StrictlySorted(s) && s != []
    ensures s[|s| - 1] !in s[..|s| - 1]
  {
    forall i | 0 <= i < |s| - 1
      ensures s[i] != s[|s| - 1]
    {
      LessTotal(s[i], s[|s| - 1]);
    }
  }

  /** In a sorted list, the place of an id is the number of ids before it in the order. */
  lemma RankIsPlace(s: seq<string>, i: nat)
    requires StrictlySorted(s) && i < |s|
    ensures |Before(Elements(s), s[i])| == i
  {
    SizeOfStrict(s[..i]);
    forall x
      ensures x in s && Less(x, s[i]) <==> x in s[..i]
    {
      BeforeIsInFront(s, i, x);
    }
    hide Less;
    assert Before(Elements(s), s[i]) == Elements(s[..i]);
  }

  lemma BeforeIsInFront(s: seq<string>, i: nat, x: string)
    requires StrictlySorted(s) && i < |s|
    ensures x in s && Less(x, s[i]) <==> x in s[..i]
  {
    hide Less;
    if x in s && Less(x, s[i]) {
      var j :| 0 <= j < |s| && s[j] == x;
      LessTotal(s[j], s[i]);
      assert j < i;
      assert s[..i][j] == x;
    }
    if x in s[..i] {
      var j :| 0 <= j < i && s[..i][j] == x;
      assert s[j] == x;
    }
  }

  /** One step of an insertion sort. */
  function Insert(x: string, s: seq<string>): (r: seq<string>)
    ensures |r| == |s| + 1
    ensures forall y :: y in r <==> y == x || y in s
  {
    if s == [] then [x]
    else if Less(x, s[0]) then [x] + s
    else
      assert s == [s[0]] + s[1..];
      [s[0]] + Insert(x, s[1..])
  }

  lemma {:induction false} InsertSorted(x: string, s: seq<string>)
    requires StrictlySorted(s) && x !in s
    ensures StrictlySorted(Insert(x, s))
  {
    if s != [] {
      LessTotal(x, s[0]);
      if Less(x, s[0]) {
        forall j | 0 <= j < |s|
          ensures Less(x, s[j])
        {
          if j > 0 {
            LessTransitive(x, s[0], s[j]);
          }
        }
      } else {
        var rest := Insert(x, s[1..]);
        InsertSorted(x, s[1..]);
        forall j | 0 <= j < |rest|
          ensures Less(s[0], rest[j])
        {
          assert rest[j] in rest;
          assert rest[j] == x || rest[j] in s[1..];
        }
      }
    }
  }

  function SortStrings(s: seq<string>): (r: seq<string>)
    ensures forall x :: x in r <==> x in s
  {
    if s == [] then []
    else
      assert s == [s[0]] + s[1..];
      Insert(s[0], SortStrings(s[1..]))
  }

  predicate Distinct(s: seq<string>) {
    forall i, j :: 0 <= i < j < |s| ==> s[i] != s[j]
  }

  lemma {:induction false} SortStringsSorts(s: seq<string>)
    requires Distinct(s)
    ensures StrictlySorted(SortStrings(s))
  {
    if s != [] {
      SortStringsSorts(s[1..]);
      InsertSorted(s[0], SortStrings(s[1..]));
    }
  }

  /** The sorted list of a set. */
  ghost function SortedIds(ids: set<string>): (r: seq<string>)
    ensures StrictlySorted(r)
    ensures forall x :: x in r <==> x in ids
    ensures |r| == |ids|
  {
    if ids == {} then []
    else
      var x :| x in ids;
      var rest := SortedIds(ids - {x});
      InsertSorted(x, rest);
      Insert(x, rest)
  }

  /** A set has only one sorted list. */
  lemma {:induction false} SortedIsUnique(a: seq<string>, b: seq<string>)
    requires StrictlySorted(a) && StrictlySorted(b)
    requires forall x :: x in a <==> x in b
    ensures a == b
  {
    assert b != [] ==> b[0] in b;
    if a != [] {
      assert a[0] in a && a[0] in b;
      var i :| 0 <= i < |b| && b[i] == a[0];
      assert b[0] in b && b[0] in a;
      var j :| 0 <= j < |a| && a[j] == b[0];
      LessTotal(a[0], b[0]);
      assert a[0] == b[0];
      forall x
        ensures x in a[1..] <==> x in b[1..]
      {
        TailMember(a, x);
        TailMember(b, x);
      }
      SortedIsUnique(a[1..], b[1..]);
      assert a == [a[0]] + a[1..] && b == [b[0]] + b[1..];
    }
  }

  lemma TailMember(s: seq<string>, x: string)
    requires StrictlySorted(s) && s != []
    ensures x in s[1..] <==> x in s && x != s[0]
  {
    if x in s[1..] {
      var k :| 0 <= k < |s[1..]| && s[1..][k] == x;
      LessTotal(s[0], s[k + 1]);
    }
    if x in s && x != s[0] {
      var k :| 0 <= k < |s| && s[k] == x;
      assert s[1..][k - 1] == x;
    }
  }

  /** Walks the ids in any order, keeps those outside `without`, and sorts what it kept. */
  method CollectSorted(ids: set<string>, without: set<string>) returns (sorted: seq<string>)
    ensures sorted == SortedIds(ids - without)
  {
    var rest, kept := ids, [];
    while rest != {}
      invariant rest <= ids && Distinct(kept)
      invariant forall x :: x in kept <==> x in ids - rest && x !in without
      decreases rest
    {
      var id :| id in rest;
      rest := rest - {id};
      if id !in without {
        kept := kept + [id];
      }
    }
    sorted := SortStrings(kept);
    SortStringsSorts(kept);
    SortedIsUnique(sorted, SortedIds(ids - without));
  }
}
