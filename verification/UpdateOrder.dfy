/** How a device decides which of two updates of the same kind is the more recent one. */
module UpdateOrder {
  import opened VectorClocks

  type UpdateId = string

  const UPDATE_ID_LENGTH: nat := 8

  /** Byte-wise string order, as used for update ids. */
  predicate LexLess(a: string, b: string) {
    b != [] && (a == [] || a[0] < b[0] || (a[0] == b[0] && LexLess(a[1..], b[1..])))
  }

  lemma {:induction false} LexTransitive(a: string, b: string, c: string)
    requires LexLess(a, b) && LexLess(b, c)
    ensures LexLess(a, c)
  {
    if a != [] && a[0] == b[0] && b[0] == c[0] {
      LexTransitive(a[1..], b[1..], c[1..]);
    }
  }

  lemma {:induction false} LexTotal(a: string, b: string)
    ensures !LexLess(a, a)
    ensures a == b || LexLess(a, b) || LexLess(b, a)
    ensures !(LexLess(a, b) && LexLess(b, a))
    decreases |a|
  {
    if a != [] {
      LexTotal(a[1..], a[1..]);
      if b != [] {
        LexTotal(a[1..], b[1..]);
        assert a == [a[0]] + a[1..] && b == [b[0]] + b[1..];
      }
    }
  }

  /** The number of edits a clock counts, then the update id. */
  datatype Rank = Rank(sum: int, id: UpdateId)

  predicate RankLess(a: Rank, b: Rank) {
    a.sum < b.sum || (a.sum == b.sum && LexLess(a.id, b.id))
  }

  predicate RankAtMost(a: Rank, b: Rank) {
    a == b || RankLess(a, b)
  }

  lemma RankTransitive(a: Rank, b: Rank, c: Rank)
    requires RankAtMost(a, b) && RankAtMost(b, c)
    ensures RankAtMost(a, c)
    ensures RankLess(a, b) || RankLess(b, c) ==> RankLess(a, c)
  {
    if a.sum == b.sum == c.sum && LexLess(a.id, b.id) && LexLess(b.id, c.id) {
      LexTransitive(a.id, b.id, c.id);
    }
  }

  lemma RankTotal(a: Rank, b: Rank)
    ensures !RankLess(a, a)
    ensures a == b || RankLess(a, b) || RankLess(b, a)
    ensures !(RankLess(a, b) && RankLess(b, a))
  {
    LexTotal(a.id, b.id);
  }

  ghost function Resolved(remote: Clock, local: Clock, remoteId: UpdateId, localId: UpdateId): Ordering {
    var remoteSum, localSum := Wrap64(Sum(remote)), Wrap64(Sum(local));
    if remoteSum == localSum then if LexLess(localId, remoteId) then After else Before
    else if remoteSum > localSum then After else Before
  }

  /** Concurrent clocks: the larger sum wins, then the larger update id; a full tie goes to the local side. */
  method ResolveConflict(remote: Clock, local: Clock, remoteId: UpdateId, localId: UpdateId) returns (order: Ordering)
    ensures order == Resolved(remote, local, remoteId, localId)
    ensures order == After || order == Before
  {
    var remoteSum := SumOfValues(remote);
    var localSum := SumOfValues(local);
    if remoteSum == localSum {
      return if LexLess(localId, remoteId) then After else Before;
    }
    return if remoteSum > localSum then After else Before;
  }

  /** The remote update's position after conflict resolution: never Concurrent. */
  ghost function Decide(remote: Clock, local: Clock, remoteId: UpdateId, localId: UpdateId): Ordering {
    var order := Compare(remote, local);
    if order == Concurrent then Resolved(remote, local, remoteId, localId) else order
  }

  /**
   * For clocks that differ, comparison plus conflict resolution is exactly the lexicographic order on
   * (clock sum, update id). Equal clocks are never decided by the ids.
   */
  lemma DecisionIsRankOrder(remote: Clock, local: Clock, remoteId: UpdateId, localId: UpdateId)
    requires Sane(remote) && Sane(local)
    ensures Decide(remote, local, remoteId, localId) == Equal <==> SameClock(remote, local)
    ensures Decide(remote, local, remoteId, localId) == After <==>
            !SameClock(remote, local) && RankLess(Rank(Sum(local), localId), Rank(Sum(remote), remoteId))
    ensures Decide(remote, local, remoteId, localId) == Before <==>
            !SameClock(remote, local) && !RankLess(Rank(Sum(local), localId), Rank(Sum(remote), remoteId))
  {
    DominatingClockHasLargerSum(remote, local);
    SumOverNonNegative(remote.Keys, remote);
    SumOverNonNegative(local.Keys, local);
  }

  /** Among different clocks with distinct ids the decision is a strict total order. */
  lemma DecisionIsStrictTotalOrder(a: Clock, b: Clock, c: Clock, ida: UpdateId, idb: UpdateId, idc: UpdateId)
    requires Sane(a) && Sane(b) && Sane(c)
    requires !SameClock(a, b) && !SameClock(b, c) && !SameClock(a, c)
    requires ida != idb
    ensures Decide(a, b, ida, idb) == After <==> Decide(b, a, idb, ida) == Before
    ensures Decide(a, b, ida, idb) == After <==> Decide(b, a, idb, ida) != After
    ensures Decide(a, b, ida, idb) == After && Decide(b, c, idb, idc) == After ==> Decide(a, c, ida, idc) == After
  {
    var ra, rb, rc := Rank(Sum(a), ida), Rank(Sum(b), idb), Rank(Sum(c), idc);
    DecisionIsRankOrder(a, b, ida, idb);
    DecisionIsRankOrder(b, a, idb, ida);
    DecisionIsRankOrder(b, c, idb, idc);
    DecisionIsRankOrder(a, c, ida, idc);
    RankTotal(ra, rb);
    if RankLess(rb, ra) && RankLess(rc, rb) {
      RankTransitive(rc, rb, ra);
    }
  }

  /** A negative counter, which no device produces, is taken for a huge one: the rank order then fails. */
  lemma NegativeCounterBreaksRankOrder()
    ensures Decide(map["d" := -1], map[], "2", "1") == After
    ensures !RankLess(Rank(Sum(map[]), "1"), Rank(Sum(map["d" := -1]), "2"))
  {
    var c: Clock := map["d" := -1];
    assert Ahead(c, map[], "d");
    SumOverTake(c.Keys, c, "d");
  }
}
