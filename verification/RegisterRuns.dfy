/** The registers of a group over whole runs: ranks, ACKs and convergence of devices. */
module RegisterRuns {
  import opened Wrappers
  import opened VectorClocks
  import opened UpdateOrder
  import opened Registers
  import opened ChangeSets
  import opened GroupProtocol
  import opened GroupRuns

  // ---------- What one received message does to a register ----------

  lemma GroupUpdatedRegisters(d: Device, g: GroupId, node: NodeId, cs: ChangeSet, now: int, h: GroupId, t: MetaType)
    requires g in d.groups && h in d.groups
    ensures var r := GroupUpdated(d, g, node, cs, now);
            && h in r.groups
            && RegisterOf(r, h, t) ==
               if h == g && cs.Meta(t).Some? then Received(RegisterOf(d, g, t), cs.Meta(t).value)
               else RegisterOf(d, h, t)
  {
    AcksKeepGroups(d, g, node, cs.acks, now);
    var d1 := if cs.acks != [] then ProcessedAcks(d, g, node, cs.acks, now) else d;
    assert RegisterOf(d1, h, t) == RegisterOf(d, h, t) && RegisterOf(d1, g, t) == RegisterOf(d, g, t);
    MetadataRegisters(d1, g, cs, h, t);
    var d2 := MetadataReceived(d1, g, cs);
    assert ChangesMembers(cs) ==> RegisterOf(MembersReceived(d2, g, cs), h, t) == RegisterOf(d2, h, t);
  }

  lemma MetadataRegisters(d: Device, g: GroupId, cs: ChangeSet, h: GroupId, t: MetaType)
    requires g in d.groups && h in d.groups
    ensures var r := MetadataReceived(d, g, cs);
            && h in r.groups
            && RegisterOf(r, h, t) ==
               if h == g && cs.Meta(t).Some? then Received(RegisterOf(d, g, t), cs.Meta(t).value)
               else RegisterOf(d, h, t)
  {
    var d1 := MetaReceived(d, g, SetName, cs.name);
    MetaReceivedRegisters(d, g, SetName, cs.name, t);
    OtherGroupRegisters(d, g, SetName, cs.name, h, t);
    var d2 := MetaReceived(d1, g, SetAvatar, cs.avatar);
    MetaReceivedRegisters(d1, g, SetAvatar, cs.avatar, t);
    OtherGroupRegisters(d1, g, SetAvatar, cs.avatar, h, t);
    MetaReceivedRegisters(d2, g, SetBurn, cs.burn, t);
    OtherGroupRegisters(d2, g, SetBurn, cs.burn, h, t);
  }

  lemma OtherGroupRegisters(d: Device, g: GroupId, s: MetaType, u: Option<Update>, h: GroupId, t: MetaType)
    requires g in d.groups && h in d.groups
    ensures var r := MetaReceived(d, g, s, u);
            h in r.groups && (h != g ==> RegisterOf(r, h, t) == RegisterOf(d, h, t))
  {
  }

  /** The update a received message carries for a register. */
  function UpdateIn(e: Event, g: GroupId, t: MetaType): Option<Update> {
    if e.Receiving? && e.g == g && e.cs.Some? then e.cs.value.Meta(t) else None
  }

  /** The step takes the group away from the device. */
  predicate Removes(d: Device, e: Event, g: GroupId) {
    e == Leaving(g) || (e.Receiving? && e.g == g && e.cs.Some? && IsSiblingLeave(d, g, e.sender, e.cs.value))
  }

  lemma ReceivingRegisters(d: Device, e: Event, g: GroupId, t: MetaType)
    requires e.Receiving? && g in d.groups && !Removes(d, e, g)
    ensures g in Step(d, e).groups
    ensures RegisterOf(Step(d, e), g, t) ==
            if UpdateIn(e, g, t).Some? then Received(RegisterOf(d, g, t), UpdateIn(e, g, t).value)
            else RegisterOf(d, g, t)
  {
    if e.cs.Some? {
      if e.g == g {
        GroupUpdatedRegisters(d, g, NodeOf(e.deviceId), e.cs.value, e.now, g, t);
      } else {
        OtherGroupReceiving(d, e, g, t);
      }
    }
  }

  lemma OtherGroupReceiving(d: Device, e: Event, g: GroupId, t: MetaType)
    requires e.Receiving? && e.cs.Some? && g in d.groups && e.g != g
    ensures g in Step(d, e).groups && RegisterOf(Step(d, e), g, t) == RegisterOf(d, g, t)
  {
    OtherGroupReceived(d, e.g, e.sender, e.deviceId, e.cs.value, e.now, g, t);
  }

  lemma OtherGroupReceived(d: Device, h: GroupId, sender: UserId, deviceId: string, cs: ChangeSet, now: int,
                           g: GroupId, t: MetaType)
    requires g in d.groups && h != g
    ensures var next := ChangeSetReceived(d, h, sender, deviceId, cs, now).0;
            g in next.groups && RegisterOf(next, g, t) == RegisterOf(d, g, t)
  {
    if IsSiblingLeave(d, h, sender, cs) {
      assert RegisterOf(LeftGroup(d, h), g, t) == RegisterOf(d, g, t);
    } else {
      var d1 := if CreatesGroup(d, h, cs) then GroupInserted(d, h, cs) else d;
      CreatedKeepsRegisters(d, h, cs, g, t);
      if h in d1.groups {
        GroupUpdatedRegisters(d1, h, NodeOf(deviceId), cs, now, g, t);
      }
    }
  }

  lemma CreatedKeepsRegisters(d: Device, h: GroupId, cs: ChangeSet, g: GroupId, t: MetaType)
    requires g in d.groups && h != g
    ensures RegisterOf(GroupInserted(d, h, cs), g, t) == RegisterOf(d, g, t)
  {
  }

  // ---------- Ranks ----------

  /** The step writes the register: a local send of the update, or a received update that is accepted. */
  ghost predicate Writes(d: Device, e: Event, g: GroupId, t: MetaType)
    requires g in d.groups
  {
    if e.Preparing? then e.g == g && StartsSend(d, g) && d.current[g].Meta(t).Some?
    else UpdateIn(e, g, t).Some? && IsAccepted(Verdict(RegisterOf(d, g, t), UpdateIn(e, g, t).value))
  }

  /** Received updates are well formed, and a local count stays within 64 bits. */
  ghost predicate InBounds(d: Device, e: Event, g: GroupId, t: MetaType)
    requires g in d.groups
  {
    && (UpdateIn(e, g, t).Some? ==> WellFormed(UpdateIn(e, g, t).value))
    && (e.Preparing? && e.g == g ==> Sum(RegisterOf(d, g, t).Clock()) < INT64_MAX)
  }

  /** One step: the rank rises on exactly the writes, and without a write value, clock and id stay. */
  lemma StepRaisesRankExactlyOnWrites(d: Device, e: Event, g: GroupId, t: MetaType)
    requires g in d.groups && Sane(RegisterOf(d, g, t).Clock())
    requires !Removes(d, e, g) && InBounds(d, e, g, t)
    ensures g in Step(d, e).groups && Sane(RegisterOf(Step(d, e), g, t).Clock())
    ensures Writes(d, e, g, t) <==> RankLess(RegisterOf(d, g, t).Rank(), RegisterOf(Step(d, e), g, t).Rank())
    ensures !Writes(d, e, g, t) <==> RegisterOf(Step(d, e), g, t) == RegisterOf(d, g, t)
  {
    var reg := RegisterOf(d, g, t);
    RankTotal(reg.Rank(), reg.Rank());
    StepRegister(d, e, g, t);
    if e.Preparing? {
      if Writes(d, e, g, t) {
        SendRaisesRank(reg, d.current[g].Meta(t).value.value, d.node, e.freshId);
      }
    } else if UpdateIn(e, g, t).Some? {
      ReceiveFollowsRank(reg, UpdateIn(e, g, t).value);
    }
  }

  /** The register after a step: sent, received, or as it was. */
  lemma StepRegister(d: Device, e: Event, g: GroupId, t: MetaType)
    requires g in d.groups && !Removes(d, e, g)
    ensures g in Step(d, e).groups
    ensures RegisterOf(Step(d, e), g, t) ==
            if e.Preparing? && Writes(d, e, g, t)
            then Sent(RegisterOf(d, g, t), d.current[g].Meta(t).value.value, d.node, e.freshId)
            else if UpdateIn(e, g, t).Some? then Received(RegisterOf(d, g, t), UpdateIn(e, g, t).value)
            else RegisterOf(d, g, t)
  {
    if e.Preparing? {
      PreparedRegisters(d, e.g, e.freshId, e.rows, g, t);
    } else if e.Receiving? {
      ReceivingRegisters(d, e, g, t);
    } else {
      OtherStepKeepsRegister(d, e, g, t);
    }
  }

  lemma OtherStepKeepsRegister(d: Device, e: Event, g: GroupId, t: MetaType)
    requires g in d.groups && !Removes(d, e, g) && !e.Preparing? && !e.Receiving?
    ensures g in Step(d, e).groups && RegisterOf(Step(d, e), g, t) == RegisterOf(d, g, t)
  {
    match e {
      case Serializing(h, deviceId, hasSet, now) =>
        if SendsTo(d, h, deviceId, hasSet) {
          SerializedFrame(d, h, deviceId, now);
        }
      case Leaving(h) =>
      case Finishing(h) =>
      case _ =>
        EditFrame(d, e);
    }
  }

  lemma PreparedRegisters(d: Device, h: GroupId, freshId: UpdateId, rows: seq<UserId>, g: GroupId, t: MetaType)
    requires g in d.groups
    ensures var p := SendPrepared(d, h, freshId, rows);
            && g in p.groups
            && RegisterOf(p, g, t) ==
               if h == g && StartsSend(d, g) && d.current[g].Meta(t).Some?
               then Sent(RegisterOf(d, g, t), d.current[g].Meta(t).value.value, d.node, freshId)
               else RegisterOf(d, g, t)
  {
    if StartsSend(d, h) {
      var d0 := SendBegun(d, h, freshId);
      assert RegisterOf(d0, g, t) == RegisterOf(d, g, t);
      StampedAllFrame(d0, h, d.current[h]);
      StampedAllRegisters(d0, h, d.current[h], g, t);
      var (d1, cs1) := StampedAll(d0, h, d.current[h]);
      MembersFrame(d1, h, BurnPrepared(d1, cs1), rows);
      MembersKeepRegisters(d1, h, BurnPrepared(d1, cs1), rows, g, t);
    }
  }

  lemma StampedAllRegisters(d: Device, h: GroupId, cs: ChangeSet, g: GroupId, t: MetaType)
    requires h in d.groups && g in d.groups
    ensures var s := StampedAll(d, h, cs).0;
            && g in s.groups
            && RegisterOf(s, g, t) ==
               if h == g && cs.Meta(t).Some? then Sent(RegisterOf(d, g, t), cs.Meta(t).value.value, d.node, d.updateId)
               else RegisterOf(d, g, t)
  {
    StampedRegisters(d, h, SetName, cs, g, t);
    var (d1, cs1) := Stamped(d, h, SetName, cs);
    StampedFrame(d, h, SetName, cs);
    StampedRegisters(d1, h, SetAvatar, cs1, g, t);
    var (d2, cs2) := Stamped(d1, h, SetAvatar, cs1);
    StampedFrame(d1, h, SetAvatar, cs1);
    StampedRegisters(d2, h, SetBurn, cs2, g, t);
  }

  lemma StampedRegisters(d: Device, h: GroupId, s: MetaType, cs: ChangeSet, g: GroupId, t: MetaType)
    requires h in d.groups && g in d.groups
    ensures var (r, stamped) := Stamped(d, h, s, cs);
            && g in r.groups
            && (t != s ==> stamped.Meta(t) == cs.Meta(t))
            && RegisterOf(r, g, t) ==
               if h == g && t == s && cs.Meta(t).Some?
               then Sent(RegisterOf(d, g, t), cs.Meta(t).value.value, d.node, d.updateId)
               else RegisterOf(d, g, t)
  {
  }

  lemma MembersKeepRegisters(d: Device, h: GroupId, cs: ChangeSet, rows: seq<UserId>, g: GroupId, t: MetaType)
    requires h in d.groups && g in d.groups
    ensures var (d1, cs1) := AddsPrepared(d, h, cs, rows);
            var d2 := RemovesPrepared(d1, h, cs1).0;
            g in d2.groups && RegisterOf(d2, g, t) == RegisterOf(d, g, t)
  {
    var (d1, cs1) := AddsPrepared(d, h, cs, rows);
    assert g in d1.groups && RegisterOf(d1, g, t) == RegisterOf(d, g, t);
    RemovesKeepRegisters(d1, h, cs1, g, t);
  }

  lemma RemovesKeepRegisters(d: Device, h: GroupId, cs: ChangeSet, g: GroupId, t: MetaType)
    requires h in d.groups && g in d.groups
    ensures var r := RemovesPrepared(d, h, cs).0; g in r.groups && RegisterOf(r, g, t) == RegisterOf(d, g, t)
  {
  }

  /** No step of the run takes the group away, and every step keeps the register's clock in bounds. */
  ghost predicate Undisturbed(d: Device, es: seq<Event>, g: GroupId, t: MetaType)
    requires g in d.groups
    decreases |es|
  {
    es == [] ||
    (var before := Run(d, es[..|es| - 1]);
     && Undisturbed(d, es[..|es| - 1], g, t)
     && g in before.groups && !Removes(before, es[|es| - 1], g) && InBounds(before, es[|es| - 1], g, t))
  }

  /** Over every run that mixes local sends with received updates, the rank of a stored register never falls. */
  lemma {:induction false} RankNeverFalls(d: Device, es: seq<Event>, g: GroupId, t: MetaType)
    requires g in d.groups && Sane(RegisterOf(d, g, t).Clock())
    requires Undisturbed(d, es, g, t)
    ensures g in Run(d, es).groups && Sane(RegisterOf(Run(d, es), g, t).Clock())
    ensures RankAtMost(RegisterOf(d, g, t).Rank(), RegisterOf(Run(d, es), g, t).Rank())
    ensures RegisterOf(d, g, t).Rank() == RegisterOf(Run(d, es), g, t).Rank() ==>
            RegisterOf(d, g, t) == RegisterOf(Run(d, es), g, t)
    decreases |es|
  {
    if es != [] {
      var init, e := es[..|es| - 1], es[|es| - 1];
      RankNeverFalls(d, init, g, t);
      StepRaisesRankExactlyOnWrites(Run(d, init), e, g, t);
      var r0, r1 := RegisterOf(d, g, t).Rank(), RegisterOf(Run(d, init), g, t).Rank();
      var r2 := RegisterOf(Run(d, es), g, t).Rank();
      RankTransitive(r0, r1, r2);
      RankTotal(r0, r0);
    }
  }

  // ---------- ACKs ----------

  function AcksOf(acks: seq<Ack>, t: UpdateType): seq<Ack> {
    if acks == [] then [] else (if acks[0].typ == t then [acks[0]] else []) + AcksOf(acks[1..], t)
  }

  lemma {:induction false} AcksOfConcat(a: seq<Ack>, b: seq<Ack>, t: UpdateType)
    ensures AcksOf(a + b, t) == AcksOf(a, t) + AcksOf(b, t)
  {
    if a == [] {
      assert a + b == b;
    } else {
      assert (a + b)[0] == a[0] && (a + b)[1..] == a[1..] + b;
      AcksOfConcat(a[1..], b, t);
      SumsAssociate(if a[0].typ == t then [a[0]] else [], AcksOf(a[1..], t), AcksOf(b, t));
    }
  }

  lemma SumsAssociate(a: seq<Ack>, b: seq<Ack>, c: seq<Ack>)
    ensures a + b + c == a + (b + c)
  {
  }

  /** Id and verdict of the ACK a change set calls for, per update type. */
  ghost function ExpectedAcks(d: Device, g: GroupId, cs: ChangeSet, t: UpdateType): seq<Ack>
    requires g in d.groups
  {
    match t
    case AddMember => if cs.add.Some? && ChangesMembers(cs) then [Ack(t, cs.add.value.id, AcceptedOk)] else []
    case RemoveMember => if cs.rm.Some? && ChangesMembers(cs) then [Ack(t, cs.rm.value.id, AcceptedOk)] else []
    case BurnMessage => if cs.burnMessage.Some? then [Ack(t, cs.burnMessage.value.id, ResultNone)] else []
    case _ => MetaAcks(d, g, t, cs.Meta(t))
  }

  lemma AcksForMatchesExpected(d: Device, g: GroupId, cs: ChangeSet, t: UpdateType)
    requires g in d.groups
    ensures AcksOf(AcksFor(d, g, cs), t) == ExpectedAcks(d, g, cs, t)
  {
    MetadataAcksOf(d, g, cs, t);
    AcksOfOne(BurnAcks(cs), t);
    MemberAcksOf(cs, t);
    AcksOfThree(MetadataAcks(d, g, cs), BurnAcks(cs), MemberAcks(cs), t);
    ExpectedIsSum(d, g, cs, t);
  }

  lemma ExpectedIsSum(d: Device, g: GroupId, cs: ChangeSet, t: UpdateType)
    requires g in d.groups
    ensures ExpectedAcks(d, g, cs, t) ==
            (if IsMeta(t) then MetaAcks(d, g, t, cs.Meta(t)) else []) +
            (if BurnAcks(cs) != [] && BurnAcks(cs)[0].typ == t then BurnAcks(cs) else []) +
            (if !ChangesMembers(cs) then []
             else if t == AddMember && cs.add.Some? then [Ack(t, cs.add.value.id, AcceptedOk)]
             else if t == RemoveMember && cs.rm.Some? then [Ack(t, cs.rm.value.id, AcceptedOk)]
             else [])
  {
  }

  lemma AcksOfThree(a: seq<Ack>, b: seq<Ack>, c: seq<Ack>, t: UpdateType)
    ensures AcksOf(a + b + c, t) == AcksOf(a, t) + AcksOf(b, t) + AcksOf(c, t)
  {
    AcksOfConcat(a + b, c, t);
    AcksOfConcat(a, b, t);
  }

  lemma MetadataAcksOf(d: Device, g: GroupId, cs: ChangeSet, t: UpdateType)
    requires g in d.groups
    ensures AcksOf(MetadataAcks(d, g, cs), t) == if IsMeta(t) then MetaAcks(d, g, t, cs.Meta(t)) else []
  {
    var a, b := MetaAcks(d, g, SetName, cs.name), MetaAcks(d, g, SetAvatar, cs.avatar);
    var c := MetaAcks(d, g, SetBurn, cs.burn);
    AcksOfThree(a, b, c, t);
    MetaAcksOf(d, g, SetName, cs.name, t);
    MetaAcksOf(d, g, SetAvatar, cs.avatar, t);
    MetaAcksOf(d, g, SetBurn, cs.burn, t);
  }

  lemma MetaAcksOf(d: Device, g: GroupId, s: MetaType, u: Option<Update>, t: UpdateType)
    requires g in d.groups
    ensures AcksOf(MetaAcks(d, g, s, u), t) == if s == t then MetaAcks(d, g, s, u) else []
  {
  }

  lemma AcksOfOne(a: seq<Ack>, t: UpdateType)
    requires |a| <= 1
    ensures AcksOf(a, t) == if a != [] && a[0].typ == t then a else []
  {
  }

  lemma MemberAcksOf(cs: ChangeSet, t: UpdateType)
    ensures AcksOf(MemberAcks(cs), t) ==
            if !ChangesMembers(cs) then []
            else if t == AddMember && cs.add.Some? then [Ack(t, cs.add.value.id, AcceptedOk)]
            else if t == RemoveMember && cs.rm.Some? then [Ack(t, cs.rm.value.id, AcceptedOk)]
            else []
  {
    if ChangesMembers(cs) {
      var a := if cs.add.Some? then [Ack(AddMember, cs.add.value.id, AcceptedOk)] else [];
      var b := if cs.rm.Some? then [Ack(RemoveMember, cs.rm.value.id, AcceptedOk)] else [];
      AcksOfConcat(a, b, t);
      AcksOfOne(a, t);
      AcksOfOne(b, t);
    }
  }

  /**
   * A received clocked update for a group the device keeps gets exactly one ACK, under its own id; it says ACCEPTED
   * exactly when the step writes the register.
   */
  lemma EveryUpdateIsAcknowledgedOnce(d: Device, e: Event, g: GroupId, t: MetaType)
    requires UpdateIn(e, g, t).Some? && g in d.groups && !Removes(d, e, g)
    ensures var u, reply := UpdateIn(e, g, t).value, MessageReceived(d, g, e.sender, e.deviceId, e.cs, e.now).1;
            && reply.Some? && !reply.value.HasUpdates()
            && |AcksOf(reply.value.acks, t)| == 1
            && AcksOf(reply.value.acks, t)[0].id == u.id
            && (IsAccepted(AcksOf(reply.value.acks, t)[0].result) <==> Writes(d, e, g, t))
  {
    AcksForMatchesExpected(d, g, e.cs.value, t);
    assert AcksFor(d, g, e.cs.value) != [] by {
      assert AcksOf([], t) == [];
    }
  }

  /**
   * The result code of that ACK, over all clocks made by counting: whether the update counts an edit the device misses,
   * whether it misses one the device counts, and for a conflict of the two which ranks higher.
   */
  lemma AckSaysExactly(d: Device, e: Event, g: GroupId, t: MetaType)
    requires UpdateIn(e, g, t).Some? && g in d.groups && !Removes(d, e, g)
    requires WellFormed(UpdateIn(e, g, t).value) && Sane(RegisterOf(d, g, t).Clock())
    ensures var u, reg := UpdateIn(e, g, t).value, RegisterOf(d, g, t);
            var reply := MessageReceived(d, g, e.sender, e.deviceId, e.cs, e.now).1;
            var newer, older := Outruns(u.clock, reg.Clock()), Outruns(reg.Clock(), u.clock);
            var wins := RankLess(reg.Rank(), Rank(Sum(u.clock), u.id));
            reply.Some? && AcksOf(reply.value.acks, t) ==
                           [Ack(t, u.id, if newer && older then if wins then AcceptedConflict else RejectedConflict
                                         else if newer then AcceptedOk
                                         else if older then RejectedPast
                                         else RejectedNop)]
  {
    VerdictMeaning(RegisterOf(d, g, t), UpdateIn(e, g, t).value);
    EveryUpdateIsAcknowledgedOnce(d, e, g, t);
    AcksForMatchesExpected(d, g, e.cs.value, t);
  }

  /** Member lists and message burns are acknowledged once too, except for a set whose member lists are all empty. */
  lemma OtherUpdatesAreAcknowledgedOnce(d: Device, g: GroupId, cs: ChangeSet, t: UpdateType)
    requires g in d.groups
    ensures t == AddMember ==>
              AcksOf(AcksFor(d, g, cs), t) == (if cs.add.Some? && (cs.AddNames() != [] || cs.RmNames() != [])
                                               then [Ack(t, cs.add.value.id, AcceptedOk)] else [])
    ensures t == RemoveMember ==>
              AcksOf(AcksFor(d, g, cs), t) == (if cs.rm.Some? && (cs.AddNames() != [] || cs.RmNames() != [])
                                               then [Ack(t, cs.rm.value.id, AcceptedOk)] else [])
    ensures t == BurnMessage ==>
              AcksOf(AcksFor(d, g, cs), t) == (if cs.burnMessage.Some?
                                               then [Ack(t, cs.burnMessage.value.id, ResultNone)] else [])
    ensures |AcksOf(AcksFor(d, g, cs), t)| <= 1
  {
    AcksForMatchesExpected(d, g, cs, t);
  }

  /** Place of a type in a reply. */
  function Place(t: UpdateType): nat {
    match t
    case SetName => 0
    case SetAvatar => 1
    case SetBurn => 2
    case BurnMessage => 3
    case AddMember => 4
    case RemoveMember => 5
  }

  predicate InOrder(acks: seq<Ack>) {
    forall i, j :: 0 <= i < j < |acks| ==> Place(acks[i].typ) < Place(acks[j].typ)
  }

  /** The ACKs of a reply come in the order of their types. */
  lemma AcksComeInOrder(d: Device, g: GroupId, cs: ChangeSet)
    requires g in d.groups
    ensures InOrder(AcksFor(d, g, cs))
  {
    MetadataAcksInOrder(d, g, cs);
    OtherAcksInOrder(cs);
    OrderJoins(MetadataAcks(d, g, cs), BurnAcks(cs), 3, 4);
    OrderJoins(MetadataAcks(d, g, cs) + BurnAcks(cs), MemberAcks(cs), 4, 6);
  }

  lemma OtherAcksInOrder(cs: ChangeSet)
    ensures InOrder(BurnAcks(cs)) && forall a <- BurnAcks(cs) :: Place(a.typ) == 3
    ensures InOrder(MemberAcks(cs)) && forall a <- MemberAcks(cs) :: Place(a.typ) >= 4
  {
  }

  lemma MetadataAcksInOrder(d: Device, g: GroupId, cs: ChangeSet)
    requires g in d.groups
    ensures InOrder(MetadataAcks(d, g, cs)) && forall a <- MetadataAcks(d, g, cs) :: Place(a.typ) < 3
  {
    var a, b := MetaAcks(d, g, SetName, cs.name), MetaAcks(d, g, SetAvatar, cs.avatar);
    OrderJoins(a, b, 1, 2);
    OrderJoins(a + b, MetaAcks(d, g, SetBurn, cs.burn), 2, 3);
  }

  lemma OrderJoins(a: seq<Ack>, b: seq<Ack>, n: nat, m: nat)
    requires n <= m && InOrder(a) && InOrder(b)
    requires (forall x <- a :: Place(x.typ) < n) && (forall x <- b :: n <= Place(x.typ) < m)
    ensures InOrder(a + b) && forall x <- a + b :: Place(x.typ) < m
  {
    forall i, j | 0 <= i < j < |a + b|
      ensures Place((a + b)[i].typ) < Place((a + b)[j].typ)
    {
      assert i < |a| ==> (a + b)[i] in a;
      assert j >= |a| ==> (a + b)[j] in b;
    }
  }

  // ---------- Convergence of devices ----------

  function UpdatesIn(es: seq<Event>, g: GroupId, t: MetaType): seq<Update> {
    if es == [] then []
    else
      var u := UpdateIn(es[|es| - 1], g, t);
      UpdatesIn(es[..|es| - 1], g, t) + (if u.Some? then [u.value] else [])
  }

  /** Received messages only, none of which takes the group away. */
  ghost predicate OnlyReceives(d: Device, es: seq<Event>, g: GroupId)
    decreases |es|
  {
    es == [] ||
    (&& OnlyReceives(d, es[..|es| - 1], g)
     && es[|es| - 1].Receiving? && !Removes(Run(d, es[..|es| - 1]), es[|es| - 1], g))
  }

  lemma {:induction false} RunFoldsUpdates(d: Device, es: seq<Event>, g: GroupId, t: MetaType)
    requires g in d.groups && OnlyReceives(d, es, g)
    ensures g in Run(d, es).groups
    ensures RegisterOf(Run(d, es), g, t) == ReceivedAll(RegisterOf(d, g, t), UpdatesIn(es, g, t))
    decreases |es|
  {
    if es != [] {
      var init, e := es[..|es| - 1], es[|es| - 1];
      RunFoldsUpdates(d, init, g, t);
      ReceivingRegisters(Run(d, init), e, g, t);
      var us, u := UpdatesIn(init, g, t), UpdateIn(e, g, t);
      if u.Some? {
        assert (us + [u.value])[..|us|] == us;
      } else {
        assert us + [] == us;
      }
    }
  }

  /**
   * Two devices that agree on a group's name (avatar, burn time) and then receive the same updates of it, however
   * packed into messages, ordered or repeated, and mixed with traffic of other groups, agree again at the end.
   */
  lemma DevicesConverge(d: Device, e: Device, es: seq<Event>, fs: seq<Event>, g: GroupId, t: MetaType)
    requires g in d.groups && g in e.groups && RegisterOf(d, g, t) == RegisterOf(e, g, t)
    requires OnlyReceives(d, es, g) && OnlyReceives(e, fs, g)
    requires Elements(UpdatesIn(es, g, t)) == Elements(UpdatesIn(fs, g, t))
    requires Determined(RegisterOf(d, g, t), Elements(UpdatesIn(es, g, t)))
    ensures g in Run(d, es).groups && g in Run(e, fs).groups
    ensures RegisterOf(Run(d, es), g, t) == RegisterOf(Run(e, fs), g, t)
    ensures IsGreatest(RegisterOf(Run(d, es), g, t), RegisterOf(d, g, t), Elements(UpdatesIn(es, g, t)))
  {
    RunFoldsUpdates(d, es, g, t);
    RunFoldsUpdates(e, fs, g, t);
    ReplicasConverge(RegisterOf(d, g, t), UpdatesIn(es, g, t), UpdatesIn(fs, g, t));
  }
}
