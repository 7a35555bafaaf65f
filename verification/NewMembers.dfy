/** A user added to a group learns its name, avatar and burn time from the set that adds the user. */
module NewMembers {
  import opened Wrappers
  import opened VectorClocks
  import opened UpdateOrder
  import opened Registers
  import opened ChangeSets
  import opened GroupProtocol
  import opened GroupRuns
  import opened RegisterRuns
  import opened WaitRecords
  import opened MemberAgreement

  /** What the device keeps of one type; defaults for a group that is gone. */
  function Kept(d: Device, g: GroupId, t: MetaType): Register {
    Register(Stored(d, g).Meta(t), Local(d, g, t))
  }

  /** What the device keeps of one type, as an update under the given id. */
  function KeptUpdate(d: Device, g: GroupId, t: MetaType, id: UpdateId): Update {
    Update(id, Kept(d, g, t).Clock(), Kept(d, g, t).value)
  }

  // ---------- The receiver ----------

  /** The device has neither the group nor a clock for the type. */
  predicate IsNewTo(r: Device, g: GroupId, t: MetaType) {
    g !in r.groups && (g, t) !in r.clocks
  }

  /** The new group has the name in the set, if there is one, and no avatar and no burn time. */
  function InitialValue(cs: ChangeSet, t: MetaType): Payload {
    if t == SetName && cs.name.Some? then cs.name.value.value else if t == SetBurn then BurnTime(0, 0) else Text("")
  }

  /** Such a device takes over any update that counts an edit from a set that adds someone. */
  lemma ReceiverLearns(r: Device, g: GroupId, sender: UserId, deviceId: string, cs: ChangeSet, now: int, t: MetaType,
                       u: Update)
    requires IsNewTo(r, g, t) && cs.AddNames() != [] && cs.Meta(t) == Some(u) && WellFormed(u)
    ensures var r1 := MessageReceived(r, g, sender, deviceId, Some(cs), now).0;
            && g in r1.groups
            && RegisterOf(r1, g, t) ==
               if IsZero(u.clock) then Register(InitialValue(cs, t), None)
               else Register(u.value, Some(LocalClock(u.clock, u.id)))
  {
    var r0 := GroupInserted(r, g, cs);
    GroupUpdatedRegisters(r0, g, NodeOf(deviceId), cs, now, g, t);
    FreshRegisterLearns(RegisterOf(r0, g, t), u);
  }

  lemma FreshRegisterLearns(reg: Register, u: Update)
    requires reg.local.None? && WellFormed(u)
    ensures Received(reg, u) == if IsZero(u.clock) then reg else Register(u.value, Some(LocalClock(u.clock, u.id)))
  {
    ZeroHasZeroSum(map[]);
    ZeroHasZeroSum(u.clock);
    ReceiveFollowsRank(reg, u);
  }

  // ---------- The sender ----------

  /** The group's set adds someone, and carries the update. */
  predicate Carrying(d: Device, g: GroupId, t: MetaType, u: Update) {
    g in d.current && d.current[g].AddNames() != [] && d.current[g].Meta(t) == Some(u)
  }

  lemma PreparedCarries(d: Device, g: GroupId, freshId: UpdateId, rows: seq<UserId>, t: MetaType)
    requires StartsSend(d, g) && d.current[g].add.Some? && rows != []
    ensures var p := SendPrepared(d, g, freshId, rows);
            g in p.groups && Carrying(p, g, t, KeptUpdate(p, g, t, freshId))
  {
    var d0 := SendBegun(d, g, freshId);
    StampedAllFrame(d0, g, d.current[g]);
    var (d1, cs1) := StampedAll(d0, g, d.current[g]);
    StampedAllCarries(d0, g, d.current[g], t);
    BurnKeepsMeta(d1, cs1, t);
    MembersCarry(d1, g, BurnPrepared(d1, cs1), rows, t);
    var (d2, cs2) := AddsPrepared(d1, g, BurnPrepared(d1, cs1), rows);
    var (d3, cs3) := RemovesPrepared(d2, g, cs2);
    assert SendPrepared(d, g, freshId, rows) == WithCurrent(d3, g, cs3);
    CurrentCarries(d3, g, cs3, t, freshId);
  }

  lemma BurnKeepsMeta(d: Device, cs: ChangeSet, t: MetaType)
    ensures BurnPrepared(d, cs).Meta(t) == cs.Meta(t) && BurnPrepared(d, cs).add == cs.add
  {
  }

  lemma CurrentCarries(d: Device, g: GroupId, cs: ChangeSet, t: MetaType, id: UpdateId)
    requires g in d.groups && cs.AddNames() != [] && cs.Meta(t) == Some(KeptUpdate(d, g, t, id))
    ensures var p := WithCurrent(d, g, cs); g in p.groups && Carrying(p, g, t, KeptUpdate(p, g, t, id))
  {
  }

  lemma StampedAllCarries(d: Device, g: GroupId, cs: ChangeSet, t: MetaType)
    requires g in d.groups
    ensures var (s, stamped) := StampedAll(d, g, cs);
            stamped.Meta(t).Some? ==> stamped.Meta(t) == Some(KeptUpdate(s, g, t, d.updateId))
  {
    StampedCarries(d, g, SetName, cs, t);
    var (d1, cs1) := Stamped(d, g, SetName, cs);
    StampedCarries(d1, g, SetAvatar, cs1, t);
    var (d2, cs2) := Stamped(d1, g, SetAvatar, cs1);
    StampedCarries(d2, g, SetBurn, cs2, t);
  }

  lemma StampedCarries(d: Device, g: GroupId, s: MetaType, cs: ChangeSet, t: MetaType)
    requires g in d.groups
    ensures var (d1, cs1) := Stamped(d, g, s, cs);
            && g in d1.groups && d1.updateId == d.updateId
            && (t == s ==> cs1.Meta(t).Some? ==> cs1.Meta(t) == Some(KeptUpdate(d1, g, t, d.updateId)))
            && (t != s ==> cs1.Meta(t) == cs.Meta(t) && Kept(d1, g, t) == Kept(d, g, t))
  {
  }

  lemma MembersCarry(d: Device, g: GroupId, cs: ChangeSet, rows: seq<UserId>, t: MetaType)
    requires g in d.groups && cs.add.Some? && rows != []
    requires cs.Meta(t).Some? ==> cs.Meta(t) == Some(KeptUpdate(d, g, t, d.updateId))
    ensures var (d1, cs1) := AddsPrepared(d, g, cs, rows);
            var (d2, cs2) := RemovesPrepared(d1, g, cs1);
            && g in d2.groups && cs2.AddNames() != []
            && cs2.Meta(t) == Some(KeptUpdate(d2, g, t, d.updateId))
  {
    AddsCarry(d, g, cs, rows, t);
    var (d1, cs1) := AddsPrepared(d, g, cs, rows);
    RemovesKeepRegisters(d1, g, cs1, g, t);
  }

  lemma AddsCarry(d: Device, g: GroupId, cs: ChangeSet, rows: seq<UserId>, t: MetaType)
    requires g in d.groups && cs.add.Some? && rows != []
    requires cs.Meta(t).Some? ==> cs.Meta(t) == Some(KeptUpdate(d, g, t, d.updateId))
    ensures var (d1, cs1) := AddsPrepared(d, g, cs, rows);
            && g in d1.groups && cs1.AddNames() != []
            && cs1.Meta(t) == Some(KeptUpdate(d1, g, t, d.updateId))
  {
    AppendedAllMeaning(cs.AddNames(), rows);
    assert rows[0] in Elements(rows);
    var d1 := MembersAdded(d, g, Elements(cs.AddNames()));
    assert Kept(d1, g, t) == Kept(d, g, t);
  }

  /** What is serialized for a device adds as many names, and each type travels as before. */
  lemma ServedCarries(d: Device, g: GroupId, deviceId: string, now: int, t: MetaType, u: Update)
    requires Carrying(d, g, t, u)
    ensures Carrying(SetForDevice(d, g, deviceId, now).0, g, t, u)
    ensures var sent := SetForDevice(d, g, deviceId, now).1; sent.AddNames() != [] && sent.Meta(t) == Some(u)
  {
    CollapsedFrame(d, g, NodeOf(deviceId), d.current[g]);
    CollapsedKeepsAdds(d, g, NodeOf(deviceId), d.current[g]);
  }

  lemma CollapsedKeepsAdds(d: Device, g: GroupId, node: NodeId, cs: ChangeSet)
    requires cs.AddNames() != []
    ensures Collapsed(d, g, node, cs).1.AddNames() != []
  {
    var key := PendingKey(d, g);
    if key.Some? {
      var older, id := d.pending[key.value], key.value[..UPDATE_ID_LENGTH];
      var addWait := WaitKey(g, node, id, AddMember);
      CollapsedAddsMeaning(d, addWait, older.AddNames(), cs);
      var (d1, cs1) := CollapsedAdds(d, addWait, older.AddNames(), cs);
      CollapsedRmsMeaning(d1, WaitKey(g, node, id, RemoveMember), older.RmNames(), cs1);
      assert cs.AddNames()[0] in Elements(cs1.AddNames());
    }
  }

  lemma StepCarries(d: Device, e: Event, g: GroupId, t: MetaType, u: Update)
    requires Carrying(d, g, t, u) && DuringSend(e)
    ensures Carrying(Step(d, e), g, t, u)
  {
    match e {
      case Serializing(h, deviceId, hasSet, now) =>
        if SendsTo(d, h, deviceId, hasSet) && h == g {
          ServedCarries(d, g, deviceId, now, t, u);
        } else if SendsTo(d, h, deviceId, hasSet) {
          CollapsedFrame(d, h, NodeOf(deviceId), d.current[h]);
        }
      case Receiving(h, sender, deviceId, cs, now) =>
        ReceivedFrame(d, h, sender, deviceId, cs, now);
    }
  }

  lemma {:induction false} RunCarries(d: Device, es: seq<Event>, g: GroupId, t: MetaType, u: Update)
    requires Carrying(d, g, t, u) && forall e <- es :: DuringSend(e)
    ensures Carrying(Run(d, es), g, t, u)
  {
    if es != [] {
      RunCarries(d, es[..|es| - 1], g, t, u);
      StepCarries(Run(d, es[..|es| - 1]), es[|es| - 1], g, t, u);
    }
  }

  // ---------- Main results ----------

  /**
   * A send of a set with an add list, to any device that has neither the group nor a clock for the type: at whatever
   * point of the send it is served, the device ends with the value and the clock that the sender had once the send was
   * prepared, under the id of the send, whether or not the type was edited. Only a type that was never edited keeps the
   * value with which the group is created.
   */
  lemma NewMemberLearns(d: Device, g: GroupId, freshId: UpdateId, rows: seq<UserId>, p: Device, es: seq<Event>,
                        deviceId: string, now: int, r: Device, senderId: string, later: int, t: MetaType)
    requires StartsSend(d, g) && d.current[g].add.Some? && rows != [] && |freshId| == UPDATE_ID_LENGTH
    requires p == SendPrepared(d, g, freshId, rows) && (forall e <- es :: DuringSend(e))
    requires Sane(Kept(p, g, t).Clock()) && IsNewTo(r, g, t)
    ensures g in p.groups && g in Run(p, es).current
    ensures var sent := SetForDevice(Run(p, es), g, deviceId, now).1;
            var r1 := MessageReceived(r, g, d.user, senderId, Some(sent), later).0;
            && g in r1.groups
            && RegisterOf(r1, g, t) ==
               if IsZero(RegisterOf(p, g, t).Clock()) then Register(InitialValue(sent, t), None)
               else Register(RegisterOf(p, g, t).value, Some(LocalClock(RegisterOf(p, g, t).Clock(), freshId)))
  {
    var u := KeptUpdate(p, g, t, freshId);
    PreparedCarries(d, g, freshId, rows, t);
    RunCarries(p, es, g, t, u);
    ServedCarries(Run(p, es), g, deviceId, now, t, u);
    ReceiverLearns(r, g, d.user, senderId, SetForDevice(Run(p, es), g, deviceId, now).1, later, t, u);
  }

  /**
   * Names that are only carried over complete the set as well: a type that it lacked is learned with the value and the
   * clock of the moment at which the device is served.
   */
  lemma CarriedOverMemberLearns(d: Device, g: GroupId, deviceId: string, now: int, r: Device, senderId: string,
                                later: int, t: MetaType)
    requires g in d.current && d.current[g].Meta(t).None? && |d.updateId| == UPDATE_ID_LENGTH
    requires SetForDevice(d, g, deviceId, now).1.AddNames() != []
    requires Sane(Kept(d, g, t).Clock()) && IsNewTo(r, g, t)
    ensures var sent := SetForDevice(d, g, deviceId, now).1;
            var r1 := MessageReceived(r, g, d.user, senderId, Some(sent), later).0;
            && g in r1.groups
            && RegisterOf(r1, g, t) ==
               if IsZero(Kept(d, g, t).Clock()) then Register(InitialValue(sent, t), None)
               else Register(Kept(d, g, t).value, Some(LocalClock(Kept(d, g, t).Clock(), d.updateId)))
  {
    CollapsedFrame(d, g, NodeOf(deviceId), d.current[g]);
    ReceiverLearns(r, g, d.user, senderId, SetForDevice(d, g, deviceId, now).1, later, t,
                   KeptUpdate(d, g, t, d.updateId));
  }

  /** Leaving forgets clocks, records and pending sets of the group, and nothing of any other group. */
  lemma LeavingForgets(d: Device, g: GroupId)
    ensures var left := Step(d, Leaving(g));
            && left.groups == d.groups - {g}
            && (forall h, t: UpdateType :: Has(left, h, t) <==> h != g && Has(d, h, t))
            && (forall h, t: UpdateType | Has(left, h, t) :: left.clocks[(h, t)] == d.clocks[(h, t)])
            && (forall k :: k in left.waits <==> k in d.waits && k.group != g)
            && (forall k :: k in left.pending <==> k in d.pending && !IsKeyOf(k, g))
  {
  }

  /** The device keeps a clock for the type. */
  predicate Has(d: Device, g: GroupId, t: UpdateType) {
    (g, t) in d.clocks
  }

  /** A user who leaves and is added again learns everything anew, whatever the device had counted before. */
  lemma LeaverLearnsAnew(d: Device, left: Device, g: GroupId, sender: UserId, deviceId: string, cs: ChangeSet, now: int,
                         t: MetaType, u: Update)
    requires left == Step(d, Leaving(g))
    requires cs.AddNames() != [] && cs.Meta(t) == Some(u) && WellFormed(u) && !IsZero(u.clock)
    ensures var back := MessageReceived(left, g, sender, deviceId, Some(cs), now).0;
            && g in back.groups && RegisterOf(back, g, t) == Register(u.value, Some(LocalClock(u.clock, u.id)))
            && back.groups[g].members == {left.user} + Elements(cs.AddNames()) - Elements(cs.RmNames())
  {
    LeavingForgets(d, g);
    assert !Has(left, g, t);
    ReceiverLearns(left, g, sender, deviceId, cs, now, t, u);
    ReceivedMembers(left, g, sender, deviceId, cs, now);
  }
}
