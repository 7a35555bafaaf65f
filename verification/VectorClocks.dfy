/** The vector clocks that stamp every group name, avatar and burn-time update. */
module VectorClocks {

  type NodeId = string

  const INT64_MAX: int := 0x7FFF_FFFF_FFFF_FFFF
  const TWO_64: int := 0x1_0000_0000_0000_0000

  type int64 = x: int | -INT64_MAX - 1 <= x <= INT64_MAX

  /** The counters a clock stores. A node without an entry counts as zero. */
  type Clock = map<NodeId, int64>

  datatype Ordering = Equal | Before | After | Concurrent

  function Get(c: Clock, n: NodeId): int64 {
    if n in c then c[n] else 0
  }

  /** Two's complement result of a 64-bit signed addition. */
  function Wrap64(x: int): int64 {
    (x + INT64_MAX + 1) % TWO_64 - INT64_MAX - 1
  }

  /** The comparison converts every counter to an unsigned 64-bit value first. */
  function AsUint64(x: int64): nat {
    if x < 0 then x + TWO_64 else x
  }

  predicate Ahead(a: Clock, b: Clock, n: NodeId) {
    AsUint64(Get(a, n)) > AsUint64(Get(b, n))
  }

  ghost predicate AheadIn(nodes: set<NodeId>, a: Clock, b: Clock) {
    exists n <- nodes :: Ahead(a, b, n)
  }

  /** Some node has a larger counter in a than in b. */
  ghost predicate Bigger(a: Clock, b: Clock) {
    AheadIn(a.Keys + b.Keys, a, b)
  }

  /** The ordering of a relative to b, read off the two pointwise comparisons. */
  ghost function Compare(a: Clock, b: Clock): Ordering {
    if Bigger(a, b) then if Bigger(b, a) then Concurrent else After
    else if Bigger(b, a) then Before else Equal
  }

  function Merge(a: Clock, b: Clock): Clock {
    map n | n in a.Keys + b.Keys :: if n in a && (n !in b || b[n] <= a[n]) then a[n] else b[n]
  }

  /** Counting up: a node that is not in the clock starts at one. */
  function Increment(c: Clock, n: NodeId): Clock {
    c[n := if n in c then Wrap64(Get(c, n) + 1) else 1]
  }

  ghost function SumOver(nodes: set<NodeId>, c: Clock): int {
    if nodes == {} then 0
    else var n :| n in nodes; Get(c, n) + SumOver(nodes - {n}, c)
  }

  ghost function Sum(c: Clock): int {
    SumOver(c.Keys, c)
  }

  /** Clocks that incrementing alone can produce: no negative counter, and a sum that fits 64 bits. */
  ghost predicate Sane(c: Clock) {
    (forall n <- c :: 0 <= c[n]) && Sum(c) <= INT64_MAX
  }

  /** Both clocks give every node the same count. */
  ghost predicate SameClock(a: Clock, b: Clock) {
    forall n <- a.Keys + b.Keys :: Get(a, n) == Get(b, n)
  }

  /** The source compares by walking over the merged clock and stops once both sides are ahead somewhere. */
  method CompareClocks(a: Clock, b: Clock) returns (order: Ordering)
    ensures order == Compare(a, b)
  {
    var aBigger, bBigger := false, false;
    var allNodes := Merge(a, b);
    MergeIsLargest(a, b);
    if |a| > |allNodes| {
      aBigger := true;
    }
    if |b| > |allNodes| {
      bBigger := true;
    }
    aBigger, bBigger := WalkNodes(a, b, allNodes.Keys, aBigger, bBigger);
    if !aBigger && !bBigger {
      return Equal;
    }
    if aBigger && !bBigger {
      return After;
    }
    if !aBigger {
      return Before;
    }
    return Concurrent;
  }

  /** The walk: each flag is raised when its clock is ahead in some node. */
  method WalkNodes(a: Clock, b: Clock, nodes: set<NodeId>, aAhead: bool, bAhead: bool)
    returns (aBigger: bool, bBigger: bool)
    ensures aBigger <==> aAhead || AheadIn(nodes, a, b)
    ensures bBigger <==> bAhead || AheadIn(nodes, b, a)
  {
    aBigger, bBigger := aAhead, bAhead;
    var rest := nodes;
    ghost var seen := {};
    while rest != {}
      invariant seen + rest == nodes
      invariant aBigger <==> aAhead || AheadIn(seen, a, b)
      invariant bBigger <==> bAhead || AheadIn(seen, b, a)
    {
      if aBigger && bBigger {
        break;
      }
      var n :| n in rest;
      var aClock, bClock := AsUint64(Get(a, n)), AsUint64(Get(b, n));
      if aClock > bClock {
        aBigger := true;
      } else if bClock > aClock {
        bBigger := true;
      }
      AheadInMore(seen, n, a, b);
      AheadInMore(seen, n, b, a);
      rest, seen := rest - {n}, seen + {n};
    }
    AheadInLarger(seen, nodes, a, b);
    AheadInLarger(seen, nodes, b, a);
    assert rest == {} ==> seen == nodes;
  }

  lemma AheadInMore(nodes: set<NodeId>, n: NodeId, a: Clock, b: Clock)
    ensures AheadIn(nodes + {n}, a, b) <==> AheadIn(nodes, a, b) || Ahead(a, b, n)
  {
  }

  lemma AheadInLarger(nodes: set<NodeId>, more: set<NodeId>, a: Clock, b: Clock)
    requires nodes <= more
    ensures AheadIn(nodes, a, b) ==> AheadIn(more, a, b)
  {
  }

  lemma MergeIsLargest(a: Clock, b: Clock)
    ensures |a| <= |Merge(a, b)| && |b| <= |Merge(a, b)|
  {
    SubsetSize(a.Keys, Merge(a, b).Keys);
    SubsetSize(b.Keys, Merge(a, b).Keys);
  }

  lemma SubsetSize<T>(small: set<T>, large: set<T>)
    requires small <= large
    ensures |small| <= |large|
  {
    assert large == small + (large - small);
  }

  /** The running 64-bit addition yields the wrapped mathematical sum, in whatever order the nodes come. */
  method SumOfValues(c: Clock) returns (sum: int64)
    ensures sum == Wrap64(Sum(c))
    ensures Sane(c) ==> sum == Sum(c)
  {
    sum := 0;
    var rest := c.Keys;
    while rest != {}
      invariant rest <= c.Keys
      invariant Wrap64(sum + SumOver(rest, c)) == Wrap64(Sum(c))
    {
      var n :| n in rest;
      SumOverTake(rest, c, n);
      WrapAbsorbs(sum + Get(c, n), SumOver(rest - {n}, c));
      sum := Wrap64(sum + Get(c, n));
      rest := rest - {n};
    }
    SumOverNonNegative(c.Keys, c);
  }

  lemma WrapAbsorbs(x: int, y: int)
    ensures Wrap64(Wrap64(x) + y) == Wrap64(x + y)
  {
  }

  lemma {:induction false} SumOverTake(nodes: set<NodeId>, c: Clock, n: NodeId)
    requires n in nodes
    ensures SumOver(nodes, c) == Get(c, n) + SumOver(nodes - {n}, c)
    decreases nodes
  {
    var m :| m in nodes && SumOver(nodes, c) == Get(c, m) + SumOver(nodes - {m}, c);
    if m != n {
      SumOverTake(nodes - {m}, c, n);
      SumOverTake(nodes - {n}, c, m);
      assert nodes - {m} - {n} == nodes - {n} - {m};
    }
  }

  lemma {:induction false} SumOverNonNegative(nodes: set<NodeId>, c: Clock)
    ensures (forall n <- c :: 0 <= c[n]) ==> 0 <= SumOver(nodes, c)
    decreases nodes
  {
    if nodes != {} {
      var n :| n in nodes;
      SumOverTake(nodes, c, n);
      SumOverNonNegative(nodes - {n}, c);
    }
  }

  /** Nodes without an entry add nothing. */
  lemma {:induction false} SumOverExtra(nodes: set<NodeId>, c: Clock)
    requires c.Keys <= nodes
    ensures SumOver(nodes, c) == Sum(c)
    decreases nodes
  {
    if nodes - c.Keys == {} {
      assert forall n <- nodes :: n in nodes - c.Keys || n in c;
      assert nodes == c.Keys;
    } else {
      var n :| n in nodes - c.Keys;
      SumOverTake(nodes, c, n);
      SumOverExtra(nodes - {n}, c);
    }
  }

  lemma {:induction false} SumOverMonotone(nodes: set<NodeId>, a: Clock, b: Clock)
    requires forall n <- nodes :: Get(a, n) <= Get(b, n)
    ensures SumOver(nodes, a) <= SumOver(nodes, b)
    ensures (exists n <- nodes :: Get(a, n) < Get(b, n)) ==> SumOver(nodes, a) < SumOver(nodes, b)
    decreases nodes
  {
    if nodes != {} {
      var n :| n in nodes;
      if exists m <- nodes :: Get(a, m) < Get(b, m) {
        n :| n in nodes && Get(a, n) < Get(b, n);
      }
      SumOverTake(nodes, a, n);
      SumOverTake(nodes, b, n);
      SumOverMonotone(nodes - {n}, a, b);
    }
  }

  /** The fact the conflict rule rests on: a clock that is ahead and nowhere behind has the larger sum. */
  lemma DominatingClockHasLargerSum(a: Clock, b: Clock)
    requires Sane(a) && Sane(b)
    ensures Compare(a, b) == After ==> Sum(b) < Sum(a)
    ensures Compare(a, b) == Before ==> Sum(a) < Sum(b)
    ensures Compare(a, b) == Equal <==> SameClock(a, b)
    ensures Compare(a, b) == Equal ==> Sum(a) == Sum(b)
  {
    var all := a.Keys + b.Keys;
    SumOverExtra(all, a);
    SumOverExtra(all, b);
    if Compare(a, b) == After {
      SumOverMonotone(all, b, a);
    } else if Compare(a, b) == Before {
      SumOverMonotone(all, a, b);
    } else if Compare(a, b) == Equal {
      SumOverMonotone(all, a, b);
      SumOverMonotone(all, b, a);
    }
  }

  /** Incrementing adds exactly one to the sum. */
  lemma IncrementAddsOne(c: Clock, n: NodeId)
    requires Sane(c) && Sum(c) < INT64_MAX
    ensures Sane(Increment(c, n)) && Sum(Increment(c, n)) == Sum(c) + 1
    ensures Compare(Increment(c, n), c) == After
  {
    var d := Increment(c, n);
    var all := c.Keys + {n};
    SumOverExtra(all, c);
    SumOverTake(all, c, n);
    SumOverTake(all, d, n);
    SumOverNonNegative(all - {n}, c);
    SumOverAgree(all - {n}, c, d);
    assert d.Keys == all;
    assert Ahead(d, c, n);
  }

  lemma {:induction false} SumOverAgree(nodes: set<NodeId>, a: Clock, b: Clock)
    requires forall n <- nodes :: Get(a, n) == Get(b, n)
    ensures SumOver(nodes, a) == SumOver(nodes, b)
    decreases nodes
  {
    if nodes != {} {
      var n :| n in nodes;
      SumOverTake(nodes, a, n);
      SumOverTake(nodes, b, n);
      SumOverAgree(nodes - {n}, a, b);
    }
  }
}
