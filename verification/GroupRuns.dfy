/** Runs of a device: any sequence of edits, sends, received messages and leaves. */
module GroupRuns {
  import opened Wrappers
  import opened VectorClocks
  import opened UpdateOrder
  import opened ChangeSets
  import opened GroupProtocol

  datatype Event =
    | Editing(g: GroupId, e: Edit)
    | Cancelling(g: GroupId)
    | Creating(g: GroupId, name: string)
    | Preparing(g: GroupId, freshId: UpdateId, rows: seq<UserId>)
    | Serializing(g: GroupId, deviceId: string, hasSet: bool, now: int)
    | Finishing(g: GroupId)
    | Receiving(g: GroupId, sender: UserId, deviceId: string, cs: Option<ChangeSet>, now: int)
    | Leaving(g: GroupId)

  ghost function Step(d: Device, e: Event): Device {
    match e
    case Editing(g, edit) => Edited(d, g, edit)
    case Cancelling(g) => Cancelled(d, g)
    case Creating(g, name) => GroupCreated(d, g, name)
    case Preparing(g, freshId, rows) => SendPrepared(d, g, freshId, rows)
    case Serializing(g, deviceId, hasSet, now) =>
      if SendsTo(d, g, deviceId, hasSet) then SetForDevice(d, g, deviceId, now).0 else d
    case Finishing(g) => SendFinished(d, g)
    case Receiving(g, sender, deviceId, cs, now) => MessageReceived(d, g, sender, deviceId, cs, now).0
    case Leaving(g) => LeftGroup(d, g)
  }

  ghost function Run(d: Device, es: seq<Event>): Device {
    if es == [] then d else Step(Run(d, es[..|es| - 1]), es[|es| - 1])
  }

  lemma RunSplits(d: Device, es: seq<Event>, e: Event)
    ensures Run(d, es + [e]) == Step(Run(d, es), e)
  {
    assert (es + [e])[..|es|] == es;
  }

  lemma {:induction false} RunConcat(d: Device, es: seq<Event>, fs: seq<Event>)
    ensures Run(d, es + fs) == Run(Run(d, es), fs)
  {
    if fs == [] {
      assert es + fs == es;
    } else {
      assert es + fs == es + fs[..|fs| - 1] + [fs[|fs| - 1]];
      RunSplits(d, es + fs[..|fs| - 1], fs[|fs| - 1]);
      RunConcat(d, es, fs[..|fs| - 1]);
    }
  }

  lemma RunContinues(d: Device, es: seq<Event>, n: nat)
    requires n <= |es|
    ensures Run(d, es) == Run(Run(d, es[..n]), es[n..])
  {
    assert es == es[..n] + es[n..];
    RunConcat(d, es[..n], es[n..]);
  }

  /** Fresh update ids are eight random bytes. */
  predicate FreshIdsFit(es: seq<Event>) {
    forall e <- es :: e.Preparing? ==> |e.freshId| == UPDATE_ID_LENGTH
  }

  // ---------- What each operation leaves alone ----------

  predicate IsEdit(e: Event) {
    e.Editing? || e.Cancelling? || e.Creating?
  }

  lemma EditFrame(d: Device, e: Event)
    requires IsEdit(e)
    ensures Step(d, e) == d.(current := Step(d, e).current)
  {
  }

  lemma PreparedFrame(d: Device, g: GroupId, freshId: UpdateId, rows: seq<UserId>)
    ensures var p := SendPrepared(d, g, freshId, rows);
            p == d.(groups := p.groups, clocks := p.clocks, current := p.current,
                    updateInProgress := p.updateInProgress, updateId := p.updateId)
    ensures var p := SendPrepared(d, g, freshId, rows);
            && p.updateId == (if StartsSend(d, g) then freshId else d.updateId)
            && d.groups.Keys <= p.groups.Keys
  {
    if StartsSend(d, g) {
      var d0 := SendBegun(d, g, freshId);
      StampedAllFrame(d0, g, d.current[g]);
      var (d1, cs1) := StampedAll(d0, g, d.current[g]);
      MembersFrame(d1, g, BurnPrepared(d1, cs1), rows);
    }
  }

  lemma StampedAllFrame(d: Device, g: GroupId, cs: ChangeSet)
    requires g in d.groups
    ensures var (s, stamped) := StampedAll(d, g, cs);
            && g in s.groups && s.groups.Keys == d.groups.Keys && s == d.(groups := s.groups, clocks := s.clocks)
            && s.groups[g].members == d.groups[g].members
            && stamped.add == cs.add && stamped.rm == cs.rm
  {
    StampedFrame(d, g, SetName, cs);
    var (d1, cs1) := Stamped(d, g, SetName, cs);
    StampedFrame(d1, g, SetAvatar, cs1);
    var (d2, cs2) := Stamped(d1, g, SetAvatar, cs1);
    StampedFrame(d2, g, SetBurn, cs2);
  }

  lemma StampedFrame(d: Device, g: GroupId, t: MetaType, cs: ChangeSet)
    requires g in d.groups
    ensures var (s, stamped) := Stamped(d, g, t, cs);
            && g in s.groups && s.groups.Keys == d.groups.Keys && s == d.(groups := s.groups, clocks := s.clocks)
            && s.groups[g].members == d.groups[g].members
            && stamped.add == cs.add && stamped.rm == cs.rm
  {
  }

  lemma MembersFrame(d: Device, g: GroupId, cs: ChangeSet, rows: seq<UserId>)
    requires g in d.groups
    ensures var (d1, cs1) := AddsPrepared(d, g, cs, rows);
            var (d2, cs2) := RemovesPrepared(d1, g, cs1);
            g in d2.groups && d2.groups.Keys == d.groups.Keys && d2 == d.(groups := d2.groups)
  {
  }

  lemma SerializedFrame(d: Device, g: GroupId, deviceId: string, now: int)
    requires g in d.current
    ensures var s := SetForDevice(d, g, deviceId, now).0;
            s == d.(current := s.current, waits := s.waits)
  {
    CollapsedFrame(d, g, NodeOf(deviceId), d.current[g]);
  }

  lemma ReceivedFrame(d: Device, g: GroupId, sender: UserId, deviceId: string, cs: Option<ChangeSet>, now: int)
    ensures var r := MessageReceived(d, g, sender, deviceId, cs, now).0;
            r == d.(groups := r.groups, clocks := r.clocks, pending := r.pending, waits := r.waits,
                    sentRemoveTo := r.sentRemoveTo)
    ensures var r := MessageReceived(d, g, sender, deviceId, cs, now).0;
            r.pending.Keys <= d.pending.Keys && r.waits.Keys <= d.waits.Keys
  {
    if cs.Some? && !IsSiblingLeave(d, g, sender, cs.value) {
      var d1 := if CreatesGroup(d, g, cs.value) then GroupInserted(d, g, cs.value) else d;
      if g in d1.groups {
        GroupUpdatedFrame(d1, g, NodeOf(deviceId), cs.value, now);
      }
    }
  }

  lemma GroupUpdatedFrame(d: Device, g: GroupId, node: NodeId, cs: ChangeSet, now: int)
    requires g in d.groups
    ensures var r := GroupUpdated(d, g, node, cs, now);
            var a := if cs.acks != [] then ProcessedAcks(d, g, node, cs.acks, now) else d;
            && r == d.(groups := r.groups, clocks := r.clocks, pending := a.pending, waits := a.waits)
            && r.pending.Keys <= d.pending.Keys && r.waits.Keys <= d.waits.Keys
            && r.groups.Keys == d.groups.Keys
  {
    AcksKeepGroups(d, g, node, cs.acks, now);
    AcksOnlyRemove(d.(waits := Unexpired(d.waits, now - MK_STORE_TIME)), g, node, cs.acks);
    var d1 := if cs.acks != [] then ProcessedAcks(d, g, node, cs.acks, now) else d;
    MetadataFrame(d1, g, cs);
  }

  lemma MetadataFrame(d: Device, g: GroupId, cs: ChangeSet)
    requires g in d.groups
    ensures var r := MetadataReceived(d, g, cs);
            && g in r.groups && r.groups.Keys == d.groups.Keys
            && r == d.(groups := r.groups, clocks := r.clocks)
  {
    MetaReceivedRegisters(d, g, SetName, cs.name, SetName);
    var d1 := MetaReceived(d, g, SetName, cs.name);
    MetaReceivedRegisters(d1, g, SetAvatar, cs.avatar, SetName);
    MetaReceivedRegisters(MetaReceived(d1, g, SetAvatar, cs.avatar), g, SetBurn, cs.burn, SetName);
  }

  lemma {:induction false} AcksOnlyRemove(d: Device, g: GroupId, node: NodeId, acks: seq<Ack>)
    ensures var r := AfterAcks(d, g, node, acks);
            && r.pending.Keys <= d.pending.Keys && r.waits.Keys <= d.waits.Keys
            && (forall ack <- acks :: WaitKey(g, node, ack.id, ack.typ) !in r.waits)
  {
    if acks != [] {
      AcksOnlyRemove(d, g, node, acks[..|acks| - 1]);
      assert acks == acks[..|acks| - 1] + [acks[|acks| - 1]];
    }
  }

  /** Nothing changes whose device it is. */
  lemma UserStays(d: Device, e: Event)
    ensures Step(d, e).user == d.user
  {
    match e {
      case Preparing(h, freshId, rows) =>
        PreparedFrame(d, h, freshId, rows);
      case Serializing(h, deviceId, hasSet, now) =>
        if SendsTo(d, h, deviceId, hasSet) {
          SerializedFrame(d, h, deviceId, now);
        }
      case Receiving(h, sender, deviceId, cs, now) =>
        ReceivedFrame(d, h, sender, deviceId, cs, now);
      case Finishing(_) =>
      case Leaving(_) =>
      case _ =>
        EditFrame(d, e);
    }
  }

  // ---------- One pending set per group ----------

  /** Ids have their fixed width wherever they are stored, and each group has at most one pending set. */
  ghost predicate IdsFit(d: Device) {
    && |d.updateId| == UPDATE_ID_LENGTH
    && (forall k <- d.waits :: |k.id| == UPDATE_ID_LENGTH)
    && PendingUnique(d)
  }

  lemma StepKeepsIdsFit(d: Device, e: Event)
    requires IdsFit(d) && FreshIdsFit([e])
    ensures IdsFit(Step(d, e))
  {
    match e {
      case Preparing(g, freshId, rows) =>
        assert e in [e];
        PreparedFrame(d, g, freshId, rows);
      case Serializing(g, deviceId, hasSet, now) =>
        if SendsTo(d, g, deviceId, hasSet) {
          SerializedFrame(d, g, deviceId, now);
          forall k <- SetForDevice(d, g, deviceId, now).0.waits
            ensures |k.id| == UPDATE_ID_LENGTH
          {
            SerializedWaits(d, g, deviceId, now, k);
          }
        }
      case Finishing(g) =>
        FinishedKeepsPendingUnique(d, g);
      case Receiving(g, sender, deviceId, cs, now) =>
        ReceivedFrame(d, g, sender, deviceId, cs, now);
      case Leaving(g) =>
      case _ =>
        EditFrame(d, e);
    }
  }

  lemma FinishedKeepsPendingUnique(d: Device, g: GroupId)
    requires PendingUnique(d) && |d.updateId| == UPDATE_ID_LENGTH
    ensures PendingUnique(SendFinished(d, g))
  {
  }

  /**
   * The records after serializing for one device: those of the set it gets, under the id of the send, and the older
   * ones, except where a newer clocked update replaces them.
   */
  lemma SerializedWaits(d: Device, g: GroupId, deviceId: string, now: int, k: WaitKey)
    requires g in d.current && k in SetForDevice(d, g, deviceId, now).0.waits
    ensures var sent := SetForDevice(d, g, deviceId, now).1;
            || (k.group == g && k.node == NodeOf(deviceId) && k.id == d.updateId && Carries(sent, k.typ))
            || (k in d.waits && !(k.group == g && k.node == NodeOf(deviceId) && IsMeta(k.typ) && Carries(sent, k.typ)))
  {
    var node := NodeOf(deviceId);
    var (d1, cs1) := Collapsed(d, g, node, d.current[g]);
    CollapsedFrame(d, g, node, d.current[g]);
    var cs2 := if cs1.add.Some? then Completed(d1, g, cs1) else cs1;
    WaitsRecordedMeaning(d1.waits, g, node, d.updateId, cs2, now, k);
  }

  lemma CollapsedFrame(d: Device, g: GroupId, node: NodeId, cs: ChangeSet)
    ensures var (d1, cs1) := Collapsed(d, g, node, cs);
            && d1 == d.(waits := d1.waits) && d1.waits.Keys <= d.waits.Keys
            && cs1 == cs.(add := cs1.add, rm := cs1.rm)
            && (cs.add.Some? ==> cs1.add.Some? && cs1.add.value.id == cs.add.value.id)
            && (cs.add.None? && cs1.add.Some? ==> cs1.add.value.id == "")
            && (cs.rm.Some? ==> cs1.rm.Some? && cs1.rm.value.id == cs.rm.value.id)
            && (cs.rm.None? && cs1.rm.Some? ==> cs1.rm.value.id == "")
  {
  }

  /** Which records there are after recording the waits of one serialized set. */
  lemma WaitsRecordedMeaning(waits: map<WaitKey, int>, g: GroupId, node: NodeId, id: UpdateId, cs: ChangeSet, now: int,
                             k: WaitKey)
    ensures k in WaitsRecorded(waits, g, node, id, cs, now) <==>
            || (k.group == g && k.node == node && k.id == id && Carries(cs, k.typ))
            || (k in waits && !(k.group == g && k.node == node && IsMeta(k.typ) && Carries(cs, k.typ)))
  {
    var w1 := MetaWaitsRecorded(waits, g, node, id, cs, now);
    MetaWaitsMeaning(waits, g, node, id, cs, now, k);
    assert k in WaitsRecorded(waits, g, node, id, cs, now) <==>
           k in w1 || (k.group == g && k.node == node && k.id == id && !IsMeta(k.typ) && Carries(cs, k.typ));
  }

  lemma MetaWaitsMeaning(waits: map<WaitKey, int>, g: GroupId, node: NodeId, id: UpdateId, cs: ChangeSet, now: int,
                         k: WaitKey)
    ensures k in MetaWaitsRecorded(waits, g, node, id, cs, now) <==>
            if k.group == g && k.node == node && IsMeta(k.typ) && Carries(cs, k.typ) then k.id == id else k in waits
  {
  }

  predicate IsMeta(t: UpdateType) {
    t == SetName || t == SetAvatar || t == SetBurn
  }

  predicate Carries(cs: ChangeSet, t: UpdateType) {
    match t
    case SetName => cs.name.Some?
    case SetAvatar => cs.avatar.Some?
    case SetBurn => cs.burn.Some?
    case AddMember => cs.add.Some?
    case RemoveMember => cs.rm.Some?
    case BurnMessage => cs.burnMessage.Some?
  }

  /** Over every run, whatever its order of sends, edits and messages, a group has at most one pending change set. */
  lemma {:induction false} AtMostOnePendingSet(d: Device, es: seq<Event>)
    requires IdsFit(d) && FreshIdsFit(es)
    ensures IdsFit(Run(d, es))
    ensures var pending := Run(d, es).pending;
            forall g, k, l :: k in pending && l in pending && IsKeyOf(k, g) && IsKeyOf(l, g) ==> k == l
  {
    if es != [] {
      var init, e := es[..|es| - 1], es[|es| - 1];
      assert es == init + [e];
      AtMostOnePendingSet(d, init);
      StepKeepsIdsFit(Run(d, init), e);
    }
  }
}
