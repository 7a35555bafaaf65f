/**
 * Runs of three devices that stamp two different names with one clock. Nothing is repeated or lost; it is enough that
 * a device takes over the clock of an update that wins, and forgets what its own clock had counted.
 */
module ClockClash {
  import opened Wrappers
  import opened VectorClocks
  import opened UpdateOrder
  import opened Registers
  import opened ChangeSets
  import opened GroupProtocol
  import opened GroupRuns
  import opened RegisterRuns

  /** The device has the group, with nothing edited or under way. */
  predicate IsIdle(d: Device, g: GroupId) {
    g != "" && g in d.groups && g !in d.current && !d.updateInProgress
  }

  /** The group is named and the change sent. */
  function Naming(g: GroupId, name: string, id: UpdateId): seq<Event> {
    [Editing(g, SetMeta(SetName, Some(Text(name))))] + [Preparing(g, id, [])] + [Finishing(g)]
  }

  /** A name update comes in. */
  function Hearing(g: GroupId, u: Update): seq<Event> {
    [Receiving(g, "peer", "peer", Some(EMPTY_SET.(name := Some(u))), 0)]
  }

  /** The update in the set that a device serializes once the name is edited and the send prepared. */
  ghost function Announced(d: Device, g: GroupId, name: string, id: UpdateId): Update {
    var p := Run(d, Naming(g, name, id)[..2]);
    (if g in p.current then SetForDevice(p, g, "peer", 0).1.name else None).GetOr(Update("", map[], Text("")))
  }

  ghost function Named(name: string, id: UpdateId, clock: Clock): ChangeSet {
    EMPTY_SET.(name := Some(Update(id, clock, Text(name))))
  }

  lemma NamePrepared(d: Device, g: GroupId, name: string, id: UpdateId)
    requires StartsSend(d, g) && g in d.groups && d.current[g] == Named(name, "", map[])
    ensures SendPrepared(d, g, id, []).current[g] ==
            Named(name, id, Increment(RegisterOf(d, g, SetName).Clock(), d.node))
  {
    var d0, cs := SendBegun(d, g, id), d.current[g];
    assert RegisterOf(d0, g, SetName) == RegisterOf(d, g, SetName);
    var (d1, cs1) := Stamped(d0, g, SetName, cs);
    assert cs1 == Named(name, id, Increment(RegisterOf(d, g, SetName).Clock(), d.node));
    StampedFrame(d0, g, SetName, cs);
    assert StampedAll(d0, g, cs) == (d1, cs1);
    assert AddsPrepared(d1, g, BurnPrepared(d1, cs1), []) == (d1, cs1);
  }

  /** Naming counts up the device's own entry; the stamped update is what goes out. */
  lemma NamingMints(d: Device, g: GroupId, name: string, id: UpdateId)
    requires IsIdle(d, g) && |id| == UPDATE_ID_LENGTH
    ensures var after := Run(d, Naming(g, name, id));
            && IsIdle(after, g) && after.node == d.node
            && RegisterOf(after, g, SetName) == Sent(RegisterOf(d, g, SetName), Text(name), d.node, id)
    ensures Announced(d, g, name, id) == Update(id, Increment(RegisterOf(d, g, SetName).Clock(), d.node), Text(name))
  {
    var edited := WithCurrent(d, g, Named(name, "", map[]));
    RunOfThree(d, Editing(g, SetMeta(SetName, Some(Text(name)))), Preparing(g, id, []), Finishing(g));
    NameEdited(d, g, name);
    NamingPrepares(edited, g, name, id);
    assert RegisterOf(edited, g, SetName) == RegisterOf(d, g, SetName);
  }

  lemma RunOfThree(d: Device, x: Event, y: Event, z: Event)
    ensures Run(d, ([x] + [y] + [z])[..2]) == Step(Step(d, x), y)
    ensures Run(d, [x] + [y] + [z]) == Step(Step(Step(d, x), y), z)
  {
    RunSplits(d, [], x);
    RunSplits(d, [x], y);
    RunSplits(d, [x] + [y], z);
    assert [] + [x] == [x] && ([x] + [y] + [z])[..2] == [x] + [y];
  }

  lemma NameEdited(d: Device, g: GroupId, name: string)
    requires IsIdle(d, g)
    ensures Step(d, Editing(g, SetMeta(SetName, Some(Text(name))))) == WithCurrent(d, g, Named(name, "", map[]))
  {
  }

  lemma NamingPrepares(d: Device, g: GroupId, name: string, id: UpdateId)
    requires StartsSend(d, g) && g in d.groups && d.current[g] == Named(name, "", map[])
    ensures var p := Step(d, Preparing(g, id, []));
            var done, minted := Step(p, Finishing(g)), Increment(RegisterOf(d, g, SetName).Clock(), d.node);
            && g in p.current && SetForDevice(p, g, "peer", 0).1.name == Some(Update(id, minted, Text(name)))
            && IsIdle(done, g) && done.node == d.node
            && RegisterOf(done, g, SetName) == Sent(RegisterOf(d, g, SetName), Text(name), d.node, id)
  {
    var p := SendPrepared(d, g, id, []);
    NamePrepared(d, g, name, id);
    PreparedFrame(d, g, id, []);
    PreparedRegisters(d, g, id, [], g, SetName);
    CollapsedFrame(p, g, NodeOf("peer"), p.current[g]);
    assert p.updateInProgress;
    assert RegisterOf(SendFinished(p, g), g, SetName) == RegisterOf(p, g, SetName);
  }

  /** The clock that goes out, given the one that is stored. */
  lemma Announces(d: Device, g: GroupId, name: string, id: UpdateId, clock: Clock)
    requires IsIdle(d, g) && |id| == UPDATE_ID_LENGTH && RegisterOf(d, g, SetName).Clock() == clock
    ensures Announced(d, g, name, id) == Update(id, Increment(clock, d.node), Text(name))
  {
    NamingMints(d, g, name, id);
  }

  lemma HearingReceives(d: Device, g: GroupId, u: Update)
    requires IsIdle(d, g)
    ensures var after := Run(d, Hearing(g, u));
            && IsIdle(after, g) && after.node == d.node
            && RegisterOf(after, g, SetName) == Received(RegisterOf(d, g, SetName), u)
  {
    NameReceived(d, g, Hearing(g, u)[0], u);
    RunSplits(d, [], Hearing(g, u)[0]);
    assert [] + Hearing(g, u) == Hearing(g, u);
  }

  lemma NameReceived(d: Device, g: GroupId, e: Event, u: Update)
    requires IsIdle(d, g) && e.Receiving? && e.g == g && e.cs == Some(EMPTY_SET.(name := Some(u)))
    ensures IsIdle(Step(d, e), g) && Step(d, e).node == d.node
    ensures RegisterOf(Step(d, e), g, SetName) == Received(RegisterOf(d, g, SetName), u)
  {
    ReceivingRegisters(d, e, g, SetName);
    ReceivedFrame(d, e.g, e.sender, e.deviceId, e.cs, e.now);
  }

  lemma NamingThenHearing(d: Device, g: GroupId, name: string, id: UpdateId, u: Update)
    requires IsIdle(d, g) && |id| == UPDATE_ID_LENGTH
    ensures var after := Run(d, Naming(g, name, id) + Hearing(g, u));
            && IsIdle(after, g) && after.node == d.node
            && RegisterOf(after, g, SetName) == Received(Sent(RegisterOf(d, g, SetName), Text(name), d.node, id), u)
  {
    RunConcat(d, Naming(g, name, id), Hearing(g, u));
    NamingMints(d, g, name, id);
    HearingReceives(Run(d, Naming(g, name, id)), g, u);
  }

  // ---------- The clocks ----------

  /** A higher-ranking update under another clock is taken over, clock and all. */
  lemma TakesOver(reg: Register, u: Update)
    requires Sane(reg.Clock()) && WellFormed(u) && !SameClock(u.clock, reg.Clock())
    requires RankLess(reg.Rank(), Rank(Sum(u.clock), u.id))
    ensures Received(reg, u) == Register(u.value, Some(LocalClock(u.clock, u.id)))
  {
    ReceiveFollowsRank(reg, u);
  }

  /** One count for n, and one for m behind it. */
  function One(n: NodeId): Clock {
    Increment(map[], n)
  }

  function Two(n: NodeId, m: NodeId): Clock {
    Increment(One(n), m)
  }

  lemma ClockSums(n: NodeId, m: NodeId)
    ensures Sane(map[]) && Sum(map[]) == 0
    ensures Sane(One(n)) && Sum(One(n)) == 1 && Sane(Two(n, m)) && Sum(Two(n, m)) == 2
  {
    IncrementAddsOne(map[], n);
    IncrementAddsOne(One(n), m);
  }

  const C1: UpdateId := "00000001"
  const B1: UpdateId := "00000002"
  const A1: UpdateId := "00000003"
  const C2: UpdateId := "00000004"
  const A2: UpdateId := "00000005"
  const B2: UpdateId := "00000006"

  lemma IdsRise()
    ensures LexLess(C1, A1) && LexLess(B1, C2)
  {
    LexLastDigit("0000000", '1', '3');
    LexLastDigit("0000000", '2', '4');
    assert C1 == "0000000" + ['1'] && A1 == "0000000" + ['3'] && B1 == "0000000" + ['2'] && C2 == "0000000" + ['4'];
  }

  lemma {:induction false} LexLastDigit(front: string, low: char, high: char)
    requires low < high
    ensures LexLess(front + [low], front + [high])
  {
    if front != [] {
      LexLastDigit(front[1..], low, high);
      assert (front + [low])[1..] == front[1..] + [low] && (front + [high])[1..] == front[1..] + [high];
    }
  }

  /** An empty register takes any update that counts an edit. */
  lemma FreshTakesOver(reg: Register, u: Update, n: NodeId)
    requires reg.local == None && |u.id| == UPDATE_ID_LENGTH && u.clock == One(n)
    ensures Received(reg, u) == Register(u.value, Some(LocalClock(u.clock, u.id)))
  {
    ClockSums(n, n);
    assert Get(One(n), n) == 1 && n in One(n).Keys + reg.Clock().Keys;
    TakesOver(reg, u);
  }

  /** At the same count the larger id wins. */
  lemma OtherIdTakesOver(reg: Register, u: Update, n: NodeId, m: NodeId)
    requires n != m && reg.local.Some? && |u.id| == UPDATE_ID_LENGTH && LexLess(reg.Id(), u.id)
    requires reg.Clock() == One(n) && u.clock == One(m)
    ensures Received(reg, u) == Register(u.value, Some(LocalClock(u.clock, u.id)))
  {
    ClockSums(n, n);
    ClockSums(m, m);
    assert Get(u.clock, m) == 1 && Get(reg.Clock(), m) == 0 && m in u.clock.Keys + reg.Clock().Keys;
    TakesOver(reg, u);
  }

  lemma OtherPairTakesOver(reg: Register, u: Update, n: NodeId, m: NodeId, o: NodeId)
    requires n != m && o != n && o != m && reg.local.Some? && |u.id| == UPDATE_ID_LENGTH && LexLess(reg.Id(), u.id)
    requires reg.Clock() == Two(o, n) && u.clock == Two(m, o)
    ensures Received(reg, u) == Register(u.value, Some(LocalClock(u.clock, u.id)))
  {
    ClockSums(m, o);
    ClockSums(o, n);
    assert Get(u.clock, m) == 1 && Get(reg.Clock(), m) == 0 && m in u.clock.Keys + reg.Clock().Keys;
    TakesOver(reg, u);
  }

  lemma LargerSumTakesOver(reg: Register, u: Update, n: NodeId, m: NodeId, o: NodeId)
    requires reg.Clock() == One(n) && u.clock == Two(m, o) && n != m && n != o && |u.id| == UPDATE_ID_LENGTH
    ensures Received(reg, u) == Register(u.value, Some(LocalClock(u.clock, u.id)))
  {
    ClockSums(n, n);
    ClockSums(m, o);
    assert Get(u.clock, n) == 0 && Get(reg.Clock(), n) == 1 && n in u.clock.Keys + reg.Clock().Keys;
    TakesOver(reg, u);
  }

  // ---------- The story ----------

  /** What a and b announce in the end, after each has heard what the others announced to it. */
  ghost function LastOfA(a: Device, b: Device, c: Device, g: GroupId): Update {
    var b1 := Run(b, Hearing(g, Announced(c, g, "c1", C1)));
    Announced(Run(a, Naming(g, "a1", A1) + Hearing(g, Announced(b1, g, "b1", B1))), g, "x", A2)
  }

  ghost function LastOfB(a: Device, b: Device, c: Device, g: GroupId): Update {
    var b1 := Run(b, Hearing(g, Announced(c, g, "c1", C1)));
    var c1 := Run(c, Naming(g, "c1", C1) + Hearing(g, Announced(a, g, "a1", A1)));
    Announced(Run(b1, Naming(g, "b1", B1) + Hearing(g, Announced(c1, g, "c2", C2))), g, "y", B2)
  }

  /** None of the three devices has named the group yet. */
  predicate IsUnnamed(d: Device, g: GroupId) {
    IsIdle(d, g) && (g, SetName) !in d.clocks
  }

  /** A device that keeps the clock that won, and the id with it. */
  ghost predicate Holds(d: Device, g: GroupId, node: NodeId, clock: Clock, id: UpdateId) {
    IsIdle(d, g) && d.node == node && RegisterOf(d, g, SetName).local == Some(LocalClock(clock, id))
  }

  lemma FreshHears(d: Device, g: GroupId, u: Update, n: NodeId)
    requires IsUnnamed(d, g) && |u.id| == UPDATE_ID_LENGTH && u.clock == One(n)
    ensures Holds(Run(d, Hearing(g, u)), g, d.node, One(n), u.id)
  {
    HearingReceives(d, g, u);
    FreshTakesOver(RegisterOf(d, g, SetName), u, n);
  }

  lemma NamerHearsLargerId(d: Device, g: GroupId, name: string, id: UpdateId, u: Update, m: NodeId)
    requires IsUnnamed(d, g) && |id| == |u.id| == UPDATE_ID_LENGTH && LexLess(id, u.id)
    requires u.clock == One(m) && m != d.node
    ensures Holds(Run(d, Naming(g, name, id) + Hearing(g, u)), g, d.node, One(m), u.id)
  {
    NamingThenHearing(d, g, name, id, u);
    OtherIdTakesOver(Sent(RegisterOf(d, g, SetName), Text(name), d.node, id), u, d.node, m);
  }

  lemma NamerHearsLargerSum(d: Device, g: GroupId, name: string, id: UpdateId, u: Update, m: NodeId, o: NodeId)
    requires IsUnnamed(d, g) && |id| == |u.id| == UPDATE_ID_LENGTH && u.clock == Two(m, o) && m != d.node && o != d.node
    ensures Holds(Run(d, Naming(g, name, id) + Hearing(g, u)), g, d.node, Two(m, o), u.id)
  {
    NamingThenHearing(d, g, name, id, u);
    LargerSumTakesOver(Sent(RegisterOf(d, g, SetName), Text(name), d.node, id), u, d.node, m, o);
  }

  lemma HolderHearsLargerId(d: Device, g: GroupId, name: string, id: UpdateId, u: Update, o: NodeId, m: NodeId,
                            was: UpdateId)
    requires Holds(d, g, d.node, One(o), was) && |id| == |u.id| == UPDATE_ID_LENGTH && LexLess(id, u.id)
    requires u.clock == Two(m, o) && m != d.node && o != d.node && m != o
    ensures Holds(Run(d, Naming(g, name, id) + Hearing(g, u)), g, d.node, Two(m, o), u.id)
  {
    NamingThenHearing(d, g, name, id, u);
    OtherPairTakesOver(Sent(RegisterOf(d, g, SetName), Text(name), d.node, id), u, d.node, m, o);
  }

  /** b takes over the clock of c's first name. */
  lemma BTakesOver(b: Device, c: Device, g: GroupId)
    requires IsUnnamed(b, g) && IsUnnamed(c, g)
    ensures Holds(Run(b, Hearing(g, Announced(c, g, "c1", C1))), g, b.node, One(c.node), C1)
  {
    Announces(c, g, "c1", C1, map[]);
    FreshHears(b, g, Announced(c, g, "c1", C1), c.node);
  }

  lemma LastOfAIs(a: Device, b: Device, c: Device, g: GroupId)
    requires IsUnnamed(a, g) && IsUnnamed(b, g) && IsUnnamed(c, g)
    requires a.node != b.node && b.node != c.node && a.node != c.node
    ensures LastOfA(a, b, c, g) == Update(A2, Increment(Two(c.node, b.node), a.node), Text("x"))
  {
    BTakesOver(b, c, g);
    var b1 := Run(b, Hearing(g, Announced(c, g, "c1", C1)));
    Announces(b1, g, "b1", B1, One(c.node));
    var fromB := Announced(b1, g, "b1", B1);
    NamerHearsLargerSum(a, g, "a1", A1, fromB, c.node, b.node);
    Announces(Run(a, Naming(g, "a1", A1) + Hearing(g, fromB)), g, "x", A2, Two(c.node, b.node));
  }

  lemma LastOfBIs(a: Device, b: Device, c: Device, g: GroupId)
    requires IsUnnamed(a, g) && IsUnnamed(b, g) && IsUnnamed(c, g)
    requires a.node != b.node && b.node != c.node && a.node != c.node
    ensures LastOfB(a, b, c, g) == Update(B2, Increment(Two(a.node, c.node), b.node), Text("y"))
  {
    IdsRise();
    BTakesOver(b, c, g);
    Announces(a, g, "a1", A1, map[]);
    var fromA := Announced(a, g, "a1", A1);
    NamerHearsLargerId(c, g, "c1", C1, fromA, a.node);
    var b1, c1 := Run(b, Hearing(g, Announced(c, g, "c1", C1))), Run(c, Naming(g, "c1", C1) + Hearing(g, fromA));
    Announces(c1, g, "c2", C2, One(a.node));
    var fromC2 := Announced(c1, g, "c2", C2);
    HolderHearsLargerId(b1, g, "b1", B1, fromC2, c.node, a.node, C1);
    Announces(Run(b1, Naming(g, "b1", B1) + Hearing(g, fromC2)), g, "y", B2, Two(a.node, c.node));
  }

  lemma ClocksMeet(a: NodeId, b: NodeId, c: NodeId)
    requires a != b && b != c && a != c
    ensures Increment(Two(c, b), a) == Increment(Two(a, c), b)
    ensures Sane(Increment(Two(c, b), a)) && !IsZero(Increment(Two(c, b), a))
  {
    ClockSums(c, b);
    IncrementAddsOne(Two(c, b), a);
    assert Get(Increment(Two(c, b), a), a) == 1 && a in Increment(Two(c, b), a).Keys + {};
    assert Increment(Two(c, b), a) == map[a := 1, b := 1, c := 1];
    assert Increment(Two(a, c), b) == map[a := 1, b := 1, c := 1];
  }

  /**
   * Any three devices of a group that was not named yet can stamp two names with one clock, and devices that hear of
   * the two in different orders then disagree for good.
   */
  lemma OneClockForTwoNames(a: Device, b: Device, c: Device, g: GroupId, value: Payload)
    requires IsUnnamed(a, g) && IsUnnamed(b, g) && IsUnnamed(c, g)
    requires a.node != b.node && b.node != c.node && a.node != c.node
    ensures var u, v := LastOfA(a, b, c, g), LastOfB(a, b, c, g);
            && u.clock == v.clock && u.value != v.value
            && ReceivedAll(Register(value, None), [u, v]) != ReceivedAll(Register(value, None), [v, u])
  {
    LastOfAIs(a, b, c, g);
    LastOfBIs(a, b, c, g);
    var u, v := LastOfA(a, b, c, g), LastOfB(a, b, c, g);
    ClocksMeet(a.node, b.node, c.node);
    SameClockTwiceDiverges(value, u, v);
  }
}
