/** The last-writer-wins register behind a group's name, avatar and burn time. */
module Registers {
  import opened Wrappers
  import opened VectorClocks
  import opened UpdateOrder

  datatype Payload = Text(text: string) | BurnTime(seconds: nat, mode: int)

  /** An update as it travels: its id, the sender's clock, and the new value. */
  datatype Update = Update(id: UpdateId, clock: Clock, value: Payload)

  datatype LocalClock = LocalClock(clock: Clock, id: UpdateId)

  /** The group's value and the clock record kept for it, if there is one yet. */
  datatype Register = Register(value: Payload, local: Option<LocalClock>) {
    function Clock(): Clock {
      if local.Some? then local.value.clock else map[]
    }

    function Id(): UpdateId {
      if local.Some? then local.value.id else ""
    }

    ghost function Rank(): Rank {
      UpdateOrder.Rank(Sum(Clock()), Id())
    }
  }

  datatype AckResult = ResultNone | AcceptedOk | AcceptedConflict | RejectedNop | RejectedPast | RejectedConflict

  predicate IsAccepted(r: AckResult) {
    r == AcceptedOk || r == AcceptedConflict
  }

  /** The local clock record keeps the first eight bytes of the id. */
  function StoredId(id: UpdateId): UpdateId {
    if |id| <= UPDATE_ID_LENGTH then id else id[..UPDATE_ID_LENGTH]
  }

  ghost function Verdict(reg: Register, u: Update): AckResult {
    var conflict := Compare(u.clock, reg.Clock()) == Concurrent;
    match Decide(u.clock, reg.Clock(), u.id, reg.Id())
    case After => if conflict then AcceptedConflict else AcceptedOk
    case Before => if conflict then RejectedConflict else RejectedPast
    case _ => RejectedNop
  }

  /** Compares the clocks, settles a conflict, and judges. None stands for the generic error of an undecided order. */
  method Judge(u: Update, reg: Register) returns (verdict: Option<AckResult>)
    ensures verdict == Some(Verdict(reg, u))
    ensures verdict == Some(RejectedNop) <==> !Bigger(u.clock, reg.Clock()) && !Bigger(reg.Clock(), u.clock)
    ensures verdict == Some(AcceptedOk) <==> Bigger(u.clock, reg.Clock()) && !Bigger(reg.Clock(), u.clock)
    ensures verdict == Some(RejectedPast) <==> !Bigger(u.clock, reg.Clock()) && Bigger(reg.Clock(), u.clock)
    ensures verdict == Some(AcceptedConflict) || verdict == Some(RejectedConflict) <==>
            Bigger(u.clock, reg.Clock()) && Bigger(reg.Clock(), u.clock)
  {
    var hasConflict := false;
    var order := CompareClocks(u.clock, reg.Clock());
    if order == Concurrent {
      hasConflict := true;
      order := ResolveConflict(u.clock, reg.Clock(), u.id, reg.Id());
    }
    if order == After {
      return Some(if hasConflict then AcceptedConflict else AcceptedOk);
    }
    if order == Before {
      return Some(if hasConflict then RejectedConflict else RejectedPast);
    }
    if order == Equal {
      return Some(RejectedNop);
    }
    return None;
  }

  /** An accepted update replaces value, clock and id together; a rejected one leaves everything alone. */
  ghost function Received(reg: Register, u: Update): Register {
    if IsAccepted(Verdict(reg, u)) then Register(u.value, Some(LocalClock(u.clock, StoredId(u.id)))) else reg
  }

  /** A local edit counts up this device in the clock and stores the fresh id. */
  function Sent(reg: Register, value: Payload, node: NodeId, id: UpdateId): Register {
    Register(value, Some(LocalClock(Increment(reg.Clock(), node), id)))
  }

  /** An accepted update is stored whole, its id up to the eight bytes the record has for it. */
  lemma AcceptedIsStored(reg: Register, u: Update)
    requires IsAccepted(Verdict(reg, u))
    ensures var r := Received(reg, u);
            && r.value == u.value && r.local.Some? && r.Clock() == u.clock
            && r.Id() <= u.id && |r.Id()| == if |u.id| < 8 then |u.id| else 8
  {
  }

  /** What a device puts on the wire: an eight-byte id and a clock made by counting up. */
  ghost predicate WellFormed(u: Update) {
    |u.id| == UPDATE_ID_LENGTH && Sane(u.clock)
  }

  /** A received update is accepted exactly when it ranks higher, and accepting it is what raises the rank. */
  lemma ReceiveFollowsRank(reg: Register, u: Update)
    requires Sane(reg.Clock()) && WellFormed(u)
    ensures Sane(Received(reg, u).Clock())
    ensures IsAccepted(Verdict(reg, u)) <==>
            !SameClock(u.clock, reg.Clock()) && RankLess(reg.Rank(), Rank(Sum(u.clock), u.id))
    ensures IsAccepted(Verdict(reg, u)) <==> RankLess(reg.Rank(), Received(reg, u).Rank())
    ensures !IsAccepted(Verdict(reg, u)) <==> Received(reg, u) == reg
  {
    DecisionIsRankOrder(u.clock, reg.Clock(), u.id, reg.Id());
    RankTotal(reg.Rank(), reg.Rank());
  }

  /** The clock counts more edits of some device than the other one. */
  ghost predicate Outruns(a: Clock, b: Clock) {
    exists n: NodeId :: Get(a, n) > Get(b, n)
  }

  lemma OutrunsIsBigger(a: Clock, b: Clock)
    requires Sane(a) && Sane(b)
    ensures Bigger(a, b) <==> Outruns(a, b)
  {
    forall n: NodeId
      ensures Ahead(a, b, n) <==> Get(a, n) > Get(b, n)
      ensures Ahead(a, b, n) ==> n in a.Keys + b.Keys
    {
    }
    if Outruns(a, b) {
      var n: NodeId :| Get(a, n) > Get(b, n);
      assert Ahead(a, b, n);
    }
  }

  /**
   * What a verdict says. Without a conflict only the clocks decide: the update is newer, older, or no news; with one,
   * each clock counts an edit that the other misses, and the rank decides.
   */
  lemma VerdictMeaning(reg: Register, u: Update)
    requires Sane(reg.Clock()) && WellFormed(u)
    ensures var verdict, newer, older := Verdict(reg, u), Outruns(u.clock, reg.Clock()), Outruns(reg.Clock(), u.clock);
            var wins := RankLess(reg.Rank(), Rank(Sum(u.clock), u.id));
            && (verdict == AcceptedOk <==> newer && !older) && (verdict == RejectedPast <==> !newer && older)
            && (verdict == RejectedNop <==> !newer && !older)
            && (verdict == AcceptedConflict <==> newer && older && wins)
            && (verdict == RejectedConflict <==> newer && older && !wins)
  {
    OutrunsIsBigger(u.clock, reg.Clock());
    OutrunsIsBigger(reg.Clock(), u.clock);
    DecisionIsRankOrder(u.clock, reg.Clock(), u.id, reg.Id());
  }

  /** A local edit always raises the rank: its clock strictly dominates the one it replaces. */
  lemma SendRaisesRank(reg: Register, value: Payload, node: NodeId, id: UpdateId)
    requires Sane(reg.Clock()) && Sum(reg.Clock()) < INT64_MAX
    ensures Sane(Sent(reg, value, node, id).Clock())
    ensures RankLess(reg.Rank(), Sent(reg, value, node, id).Rank())
  {
    IncrementAddsOne(reg.Clock(), node);
  }

  ghost function ReceivedAll(reg: Register, us: seq<Update>): Register {
    if us == [] then reg else Received(ReceivedAll(reg, us[..|us| - 1]), us[|us| - 1])
  }

  /** A clock that counts no edit at all. */
  ghost predicate IsZero(c: Clock) {
    SameClock(c, map[])
  }

  ghost predicate Clashes(u: Update, id: UpdateId, clock: Clock) {
    !IsZero(u.clock) && (SameClock(u.clock, clock) || u.id == id)
  }

  /**
   * The premise of convergence: a clock, and an id, determine the update. It covers the update the
   * register already holds. Updates that count no edit are exempt, since nothing ever accepts them.
   */
  ghost predicate Determined(reg: Register, us: set<Update>) {
    && Sane(reg.Clock())
    && (forall u <- us :: WellFormed(u))
    && (forall u <- us, v <- us :: Clashes(u, v.id, v.clock) ==> u == v)
    && (reg.local.Some? ==> forall u <- us :: Clashes(u, reg.Id(), reg.Clock()) ==> u == AsUpdate(reg))
  }

  ghost function AsUpdate(reg: Register): Update {
    Update(reg.Id(), reg.Clock(), reg.value)
  }

  /** reg holds one of the candidates and ranks above all the others. */
  ghost predicate IsGreatest(reg: Register, start: Register, us: set<Update>) {
    && (reg == start || (reg.local.Some? && AsUpdate(reg) in us && !IsZero(reg.Clock())))
    && RankAtMost(start.Rank(), reg.Rank())
    && forall u <- us :: IsZero(u.clock) || u == AsUpdate(reg) || RankLess(Rank(Sum(u.clock), u.id), reg.Rank())
  }

  function Elements<T>(s: seq<T>): set<T> {
    set x | x in s
  }

  lemma ZeroHasZeroSum(c: Clock)
    requires Sane(c)
    ensures IsZero(c) ==> Sum(c) == 0
    ensures !IsZero(c) ==> Sum(c) > 0
  {
    SumOverNonNegative(c.Keys, c);
    var zero: Clock := map[];
    SumOverExtra(c.Keys, zero);
    if IsZero(c) {
      SumOverMonotone(c.Keys, c, zero);
    } else {
      SumOverMonotone(c.Keys, zero, c);
    }
  }

  lemma {:induction false} ReceivedAllIsGreatest(start: Register, us: seq<Update>)
    requires Determined(start, Elements(us))
    ensures IsGreatest(ReceivedAll(start, us), start, Elements(us))
    ensures Sane(ReceivedAll(start, us).Clock())
  {
    if us != [] {
      var init, u := us[..|us| - 1], us[|us| - 1];
      assert us == init + [u];
      assert Elements(us) == Elements(init) + {u};
      ReceivedAllIsGreatest(start, init);
      ReceiveKeepsGreatest(start, Elements(init), ReceivedAll(start, init), u);
    }
  }

  lemma ReceiveKeepsGreatest(start: Register, us: set<Update>, reg: Register, u: Update)
    requires Determined(start, us + {u})
    requires IsGreatest(reg, start, us) && Sane(reg.Clock())
    ensures IsGreatest(Received(reg, u), start, us + {u})
    ensures Sane(Received(reg, u).Clock())
  {
    var next := Received(reg, u);
    var rank := Rank(Sum(u.clock), u.id);
    ReceiveFollowsRank(reg, u);
    RankTotal(reg.Rank(), rank);
    ZeroHasZeroSum(u.clock);
    ZeroHasZeroSum(reg.Clock());
    if IsAccepted(Verdict(reg, u)) {
      assert next.Rank() == rank && AsUpdate(next) == u;
      RankTransitive(start.Rank(), reg.Rank(), rank);
      forall v <- us | !IsZero(v.clock)
        ensures RankLess(Rank(Sum(v.clock), v.id), rank)
      {
        RankTransitive(Rank(Sum(v.clock), v.id), reg.Rank(), rank);
      }
    } else if !IsZero(u.clock) && u != AsUpdate(reg) {
      assert RankLess(rank, reg.Rank());
    }
  }

  /**
   * Convergence. Two replicas that start from the same register and process the same set of updates, in any
   * order and with any repetition, end with the same value, clock and id: those of the greatest update.
   */
  lemma ReplicasConverge(start: Register, us: seq<Update>, vs: seq<Update>)
    requires Elements(us) == Elements(vs)
    requires Determined(start, Elements(us))
    ensures ReceivedAll(start, us) == ReceivedAll(start, vs)
    ensures IsGreatest(ReceivedAll(start, us), start, Elements(us))
  {
    ReceivedAllIsGreatest(start, us);
    ReceivedAllIsGreatest(start, vs);
    GreatestIsUnique(ReceivedAll(start, us), ReceivedAll(start, vs), start, Elements(us));
  }

  lemma GreatestIsUnique(r: Register, q: Register, start: Register, us: set<Update>)
    requires Determined(start, us)
    requires IsGreatest(r, start, us) && IsGreatest(q, start, us)
    ensures r == q
  {
    RankTotal(r.Rank(), q.Rank());
    RankTotal(start.Rank(), start.Rank());
    RankTotal(start.Rank(), r.Rank());
    RankTotal(start.Rank(), q.Rank());
  }

  ghost predicate Outranks(u: Update, reg: Register) {
    !SameClock(u.clock, reg.Clock()) && RankLess(reg.Rank(), Rank(Sum(u.clock), u.id))
  }

  /** Neither update can displace the other. */
  ghost predicate Tied(u: Update, v: Update) {
    SameClock(u.clock, v.clock) || (Sum(u.clock) == Sum(v.clock) && u.id == v.id)
  }

  /** v repeats the clock reg already has, but under an id that beats u once u has been taken. */
  ghost predicate Overtakes(v: Update, u: Update, reg: Register) {
    && Outranks(u, reg)
    && SameClock(v.clock, reg.Clock())
    && RankLess(Rank(Sum(u.clock), u.id), Rank(Sum(v.clock), v.id))
  }

  /** Without the premise of convergence the order can matter: this is exactly when it does, for two updates. */
  lemma OrderMattersExactlyWhen(reg: Register, u: Update, v: Update)
    requires Sane(reg.Clock()) && WellFormed(u) && WellFormed(v)
    ensures Received(Received(reg, u), v) != Received(Received(reg, v), u) <==>
            u != v && ((Outranks(u, reg) && Outranks(v, reg) && Tied(u, v))
                       || Overtakes(u, v, reg) || Overtakes(v, u, reg))
  {
    ReceiveFollowsRank(reg, u);
    ReceiveFollowsRank(reg, v);
    ReceiveFollowsRank(Received(reg, u), v);
    ReceiveFollowsRank(Received(reg, v), u);
    var a, b, r := Rank(Sum(u.clock), u.id), Rank(Sum(v.clock), v.id), reg.Rank();
    RankTotal(a, b);
    RankTotal(a, r);
    RankTotal(b, r);
    if RankLess(r, a) && RankLess(a, b) {
      RankTransitive(r, a, b);
    } else if RankLess(r, b) && RankLess(b, a) {
      RankTransitive(r, b, a);
    }
  }

  lemma ReceivedTwice(reg: Register, u: Update, v: Update)
    ensures ReceivedAll(reg, [u, v]) == Received(Received(reg, u), v)
  {
    assert [u, v][..1] == [u] && [u][..0] == [];
    assert ReceivedAll(reg, [u]) == Received(ReceivedAll(reg, [u][..0]), u);
  }

  /** Two edits that reached the same clock leave readers that saw them in different orders disagreeing for good. */
  lemma SameClockTwiceDiverges(value: Payload, u: Update, v: Update)
    requires WellFormed(u) && WellFormed(v) && u != v
    requires SameClock(u.clock, v.clock) && !IsZero(u.clock)
    ensures ReceivedAll(Register(value, None), [u, v]) != ReceivedAll(Register(value, None), [v, u])
  {
    var start := Register(value, None);
    ZeroHasZeroSum(u.clock);
    ZeroHasZeroSum(v.clock);
    OrderMattersExactlyWhen(start, u, v);
    ReceivedTwice(start, u, v);
    ReceivedTwice(start, v, u);
  }

  /** A concrete pair of such updates. */
  lemma SameClockTwiceExample()
    ensures var u, v := Update("00000001", map["d" := 1], Text("a")), Update("00000002", map["d" := 1], Text("b"));
            ReceivedAll(Register(Text(""), None), [u, v]) != ReceivedAll(Register(Text(""), None), [v, u])
  {
    var clock: Clock := map["d" := 1];
    SumOverTake(clock.Keys, clock, "d");
    assert Get(clock, "d") == 1;
    SameClockTwiceDiverges(Text(""), Update("00000001", clock, Text("a")), Update("00000002", clock, Text("b")));
  }
}
