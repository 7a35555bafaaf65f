/** Wait-for-ACK records and pending change sets: what is awaited, what is carried over, what is collected. */
module WaitRecords {
  import opened Wrappers
  import opened VectorClocks
  import opened UpdateOrder
  import opened Registers
  import opened ChangeSets
  import opened GroupProtocol
  import opened GroupRuns

  // ---------- The latest update sent to a device ----------

  /** The id under which a clocked update of type t was last sent to the node during the run. */
  ghost function LastSent(d: Device, es: seq<Event>, g: GroupId, node: NodeId, t: MetaType): Option<UpdateId> {
    if es == [] then None
    else
      var before, e := Run(d, es[..|es| - 1]), es[|es| - 1];
      if && e.Serializing? && e.g == g && NodeOf(e.deviceId) == node && SendsTo(before, g, e.deviceId, e.hasSet)
         && SetForDevice(before, g, e.deviceId, e.now).1.Meta(t).Some?
      then Some(before.updateId)
      else LastSent(d, es[..|es| - 1], g, node, t)
  }

  /**
   * Over every run from a device without records, a record for a name, avatar or burn update carries the id of the
   * latest such update sent to that device, so there is at most one per (group, device, type).
   */
  lemma {:induction false} WaitRecordsAreLatest(d: Device, es: seq<Event>, k: WaitKey, t: MetaType)
    requires d.waits == map[]
    requires k in Run(d, es).waits && k.typ == t
    ensures LastSent(d, es, k.group, k.node, t) == Some(k.id)
    ensures forall l <- Run(d, es).waits :: l.group == k.group && l.node == k.node && l.typ == t ==> l == k
    decreases |es|
  {
    if es != [] {
      var init, e := es[..|es| - 1], es[|es| - 1];
      var before := Run(d, init);
      forall l <- Run(d, es).waits | l.group == k.group && l.node == k.node && l.typ == t
        ensures LastSent(d, es, k.group, k.node, t) == Some(l.id)
      {
        StepRecords(before, e, l, t);
        if l in before.waits {
          WaitRecordsAreLatest(d, init, l, t);
        }
      }
    }
  }

  /** A record after a step was there before, or stems from this step; a newer update of its type replaces it. */
  lemma StepRecords(d: Device, e: Event, k: WaitKey, t: MetaType)
    requires k in Step(d, e).waits && k.typ == t
    ensures if e.Serializing? && e.g == k.group && NodeOf(e.deviceId) == k.node && SendsTo(d, e.g, e.deviceId, e.hasSet)
               && SetForDevice(d, e.g, e.deviceId, e.now).1.Meta(t).Some?
            then k.id == d.updateId
            else k in d.waits
  {
    match e {
      case Preparing(g, freshId, rows) =>
        PreparedFrame(d, g, freshId, rows);
      case Serializing(g, deviceId, hasSet, now) =>
        if SendsTo(d, g, deviceId, hasSet) {
          SerializedWaits(d, g, deviceId, now, k);
        }
      case Receiving(g, sender, deviceId, cs, now) =>
        ReceivedFrame(d, g, sender, deviceId, cs, now);
      case Finishing(g) =>
      case Leaving(g) =>
      case _ =>
        EditFrame(d, e);
    }
  }

  /** During a send, the clocked updates and the message burns carry its id. */
  predicate CarriesId(cs: ChangeSet, id: UpdateId) {
    && (cs.name.Some? ==> cs.name.value.id == id)
    && (cs.avatar.Some? ==> cs.avatar.value.id == id)
    && (cs.burn.Some? ==> cs.burn.value.id == id)
    && (cs.burnMessage.Some? ==> cs.burnMessage.value.id == id)
  }

  /** A member list carries the id of the send if the set had the list when the send began, and else no id at all. */
  predicate ListTravels(list: Option<NameList>, begun: Option<NameList>, id: UpdateId) {
    && (begun.Some? ==> list.Some?)
    && (list.Some? ==> list.value.id == if begun.Some? then id else "")
  }

  predicate ListsTravel(cs: ChangeSet, begun: ChangeSet, id: UpdateId) {
    ListTravels(cs.add, begun.add, id) && ListTravels(cs.rm, begun.rm, id)
  }

  /** A send of the group is under way, and the member lists of the set it began with travel. */
  ghost predicate ListsSending(d: Device, g: GroupId, id: UpdateId, begun: ChangeSet) {
    d.updateInProgress && d.updateId == id && g in d.current && ListsTravel(d.current[g], begun, id)
  }

  /** A send of the group is under way that began with the given set. */
  ghost predicate Sending(d: Device, g: GroupId, id: UpdateId, begun: ChangeSet) {
    ListsSending(d, g, id, begun) && CarriesId(d.current[g], id)
  }

  lemma PreparingStartsSending(d: Device, g: GroupId, freshId: UpdateId, rows: seq<UserId>)
    requires StartsSend(d, g)
    ensures Sending(SendPrepared(d, g, freshId, rows), g, freshId, d.current[g])
  {
    PreparedIds(d, g, freshId, rows);
    PreparedIsUnderWay(d, g, freshId, rows);
  }

  lemma PreparedIsUnderWay(d: Device, g: GroupId, freshId: UpdateId, rows: seq<UserId>)
    requires StartsSend(d, g)
    ensures var p := SendPrepared(d, g, freshId, rows); p.updateInProgress && p.updateId == freshId && g in p.current
  {
    var d0 := SendBegun(d, g, freshId);
    StampedAllFrame(d0, g, d.current[g]);
    var (d1, cs1) := StampedAll(d0, g, d.current[g]);
    MembersFrame(d1, g, BurnPrepared(d1, cs1), rows);
  }

  lemma PreparedIds(d: Device, g: GroupId, freshId: UpdateId, rows: seq<UserId>)
    requires StartsSend(d, g)
    ensures var cs := SendPrepared(d, g, freshId, rows).current[g];
            CarriesId(cs, freshId) && ListsTravel(cs, d.current[g], freshId)
  {
    var d0 := SendBegun(d, g, freshId);
    StampedAllFrame(d0, g, d.current[g]);
    StampedIds(d0, g, d.current[g]);
    var (d1, cs1) := StampedAll(d0, g, d.current[g]);
    BurnIds(d1, cs1);
    MemberListIds(d1, g, BurnPrepared(d1, cs1), rows);
  }

  lemma BurnIds(d: Device, cs: ChangeSet)
    requires CarriesId(cs.(burnMessage := None), d.updateId)
    ensures CarriesId(BurnPrepared(d, cs), d.updateId)
    ensures BurnPrepared(d, cs).add == cs.add && BurnPrepared(d, cs).rm == cs.rm
  {
  }

  lemma StampedIds(d: Device, g: GroupId, cs: ChangeSet)
    requires g in d.groups
    ensures var stamped := StampedAll(d, g, cs).1;
            && CarriesId(stamped.(burnMessage := None), d.updateId)
            && stamped.burnMessage == cs.burnMessage
  {
    StampedId(d, g, SetName, cs);
    var (d1, cs1) := Stamped(d, g, SetName, cs);
    StampedId(d1, g, SetAvatar, cs1);
    var (d2, cs2) := Stamped(d1, g, SetAvatar, cs1);
    StampedId(d2, g, SetBurn, cs2);
  }

  lemma StampedId(d: Device, g: GroupId, t: MetaType, cs: ChangeSet)
    requires g in d.groups
    ensures var (s, stamped) := Stamped(d, g, t, cs);
            && g in s.groups && s.updateId == d.updateId
            && (stamped.Meta(t).Some? ==> stamped.Meta(t).value.id == d.updateId)
            && stamped == cs.WithMeta(t, stamped.Meta(t))
  {
  }

  lemma MemberListIds(d: Device, g: GroupId, cs: ChangeSet, rows: seq<UserId>)
    requires g in d.groups && CarriesId(cs, d.updateId)
    ensures var (d1, cs1) := AddsPrepared(d, g, cs, rows);
            var cs2 := RemovesPrepared(d1, g, cs1).1;
            && CarriesId(cs2, d.updateId)
            && (cs2.add.Some? <==> cs.add.Some?) && (cs2.add.Some? ==> cs2.add.value.id == d.updateId)
            && (cs2.rm.Some? <==> cs.rm.Some?) && (cs2.rm.Some? ==> cs2.rm.value.id == d.updateId)
  {
    AddListId(d, g, cs, rows);
  }

  lemma AddListId(d: Device, g: GroupId, cs: ChangeSet, rows: seq<UserId>)
    requires g in d.groups && CarriesId(cs, d.updateId)
    ensures var (d1, cs1) := AddsPrepared(d, g, cs, rows);
            && CarriesId(cs1, d.updateId)
            && (cs1.add.Some? <==> cs.add.Some?) && (cs1.add.Some? ==> cs1.add.value.id == d.updateId)
            && cs1.rm == cs.rm && d1.updateId == d.updateId
  {
  }

  /**
   * What is serialized for a device carries the id of the send, member lists that only joined on the way excepted, and
   * the send goes on as before for the next device.
   */
  lemma SerializingKeepsSending(d: Device, g: GroupId, deviceId: string, now: int, begun: ChangeSet)
    requires Sending(d, g, d.updateId, begun)
    ensures Sending(SetForDevice(d, g, deviceId, now).0, g, d.updateId, begun)
    ensures var sent := SetForDevice(d, g, deviceId, now).1;
            CarriesId(sent, d.updateId) && ListsTravel(sent, begun, d.updateId)
  {
    CollapsedFrame(d, g, NodeOf(deviceId), d.current[g]);
  }

  lemma SerializingKeepsLists(d: Device, g: GroupId, deviceId: string, now: int, begun: ChangeSet)
    requires ListsSending(d, g, d.updateId, begun)
    ensures ListsSending(SetForDevice(d, g, deviceId, now).0, g, d.updateId, begun)
    ensures ListsTravel(SetForDevice(d, g, deviceId, now).1, begun, d.updateId)
  {
    CollapsedFrame(d, g, NodeOf(deviceId), d.current[g]);
  }

  /** Between preparing a send and finishing it, sets are serialized for devices, and messages may come in. */
  predicate DuringSend(e: Event) {
    e.Serializing? || e.Receiving?
  }

  lemma {:induction false} SendGoesOn(d: Device, es: seq<Event>, g: GroupId, id: UpdateId, begun: ChangeSet)
    requires Sending(d, g, id, begun) && forall e <- es :: DuringSend(e)
    ensures Sending(Run(d, es), g, id, begun)
  {
    if es != [] {
      var init, e := es[..|es| - 1], es[|es| - 1];
      SendGoesOn(d, init, g, id, begun);
      StepKeepsSending(Run(d, init), e, g, id, begun);
    }
  }

  lemma StepKeepsSending(d: Device, e: Event, g: GroupId, id: UpdateId, begun: ChangeSet)
    requires Sending(d, g, id, begun) && DuringSend(e)
    ensures Sending(Step(d, e), g, id, begun)
  {
    match e {
      case Serializing(h, deviceId, hasSet, now) =>
        if SendsTo(d, h, deviceId, hasSet) {
          if h == g {
            SerializingKeepsSending(d, g, deviceId, now, begun);
          } else {
            CollapsedFrame(d, h, NodeOf(deviceId), d.current[h]);
          }
        }
      case Receiving(h, sender, deviceId, cs, now) =>
        ReceivedFrame(d, h, sender, deviceId, cs, now);
    }
  }

  /**
   * The set can be edited, and anything else be done, between two devices of a send. Only finishing the send, or
   * cancelling the set, ends it.
   */
  predicate DoesNotEndSend(e: Event, g: GroupId) {
    !e.Finishing? && e != Cancelling(g)
  }

  lemma {:induction false} ListsGoOn(d: Device, es: seq<Event>, g: GroupId, id: UpdateId, begun: ChangeSet)
    requires ListsSending(d, g, id, begun) && forall e <- es :: DoesNotEndSend(e, g)
    ensures ListsSending(Run(d, es), g, id, begun)
  {
    if es != [] {
      ListsGoOn(d, es[..|es| - 1], g, id, begun);
      StepKeepsLists(Run(d, es[..|es| - 1]), es[|es| - 1], g, id, begun);
    }
  }

  lemma StepKeepsLists(d: Device, e: Event, g: GroupId, id: UpdateId, begun: ChangeSet)
    requires ListsSending(d, g, id, begun) && DoesNotEndSend(e, g)
    ensures ListsSending(Step(d, e), g, id, begun)
  {
    match e {
      case Serializing(h, deviceId, hasSet, now) =>
        if SendsTo(d, h, deviceId, hasSet) {
          if h == g {
            SerializingKeepsLists(d, g, deviceId, now, begun);
          } else {
            CollapsedFrame(d, h, NodeOf(deviceId), d.current[h]);
          }
        }
      case Receiving(h, sender, deviceId, cs, now) =>
        ReceivedFrame(d, h, sender, deviceId, cs, now);
      case Preparing(_, _, _) =>
      case Leaving(_) =>
      case _ =>
        EditKeepsLists(d, e, g, id, begun);
    }
  }

  lemma EditKeepsLists(d: Device, e: Event, g: GroupId, id: UpdateId, begun: ChangeSet)
    requires IsEdit(e) && ListsSending(d, g, id, begun) && DoesNotEndSend(e, g)
    ensures ListsSending(Step(d, e), g, id, begun)
  {
    EditFrame(d, e);
    match e {
      case Editing(h, edit) =>
        EditSetKeepsLists(d.current[g], edit, d.user, begun, id);
      case Creating(h, name) =>
        GroupCreatedLists(d, h, name, g);
        AddNameKeepsLists(UndoRm(d.current[g], d.user), d.user, begun, id);
      case Cancelling(_) =>
    }
  }

  lemma GroupCreatedLists(d: Device, h: GroupId, name: string, g: GroupId)
    requires g in d.current
    ensures var c := GroupCreated(d, h, name);
            && g in c.current
            && (h != g ==> c.current[g] == d.current[g])
            && (h == g ==> var cs := AddName(UndoRm(d.current[g], d.user), d.user);
                           c.current[g].add == cs.add && c.current[g].rm == cs.rm)
  {
  }

  lemma EditSetKeepsLists(cs: ChangeSet, e: Edit, own: UserId, begun: ChangeSet, id: UpdateId)
    requires ListsTravel(cs, begun, id)
    ensures ListsTravel(EditSet(cs, e, own), begun, id)
  {
    match e {
      case AddUser(u) =>
        AddNameKeepsLists(UndoRm(cs, u), u, begun, id);
      case RemoveUser(u, _) =>
        RmNameKeepsLists(UndoAdd(cs, u), u, begun, id);
      case _ =>
    }
  }

  lemma AddNameKeepsLists(cs: ChangeSet, name: UserId, begun: ChangeSet, id: UpdateId)
    requires ListsTravel(cs, begun, id)
    ensures ListsTravel(AddName(cs, name), begun, id)
  {
  }

  lemma RmNameKeepsLists(cs: ChangeSet, name: UserId, begun: ChangeSet, id: UpdateId)
    requires ListsTravel(cs, begun, id)
    ensures ListsTravel(RmName(cs, name), begun, id)
  {
  }

  // ---------- Carry-over ----------

  /**
   * Carry-over. Every name of the group's older pending lists that the device has not acknowledged is in the set
   * serialized for it, nothing else is added, and a record under the id of this send covers the lists.
   */
  lemma UnacknowledgedNamesAreCarriedOver(d: Device, g: GroupId, deviceId: string, now: int, key: string)
    requires PendingUnique(d) && g in d.current
    requires key in d.pending && IsKeyOf(key, g)
    ensures var (s, sent) := SetForDevice(d, g, deviceId, now);
            var node, oldId, older := NodeOf(deviceId), key[..UPDATE_ID_LENGTH], d.pending[key];
            var addWait, rmWait := WaitKey(g, node, oldId, AddMember), WaitKey(g, node, oldId, RemoveMember);
            var addWaits, rmWaits := addWait in d.waits, rmWait in d.waits;
            && Elements(sent.AddNames()) ==
               Elements(d.current[g].AddNames()) + (if addWaits then Elements(older.AddNames()) else {})
            && Elements(sent.RmNames()) ==
               Elements(d.current[g].RmNames()) + (if rmWaits then Elements(older.RmNames()) else {})
            && (sent.AddNames() != [] ==> WaitKey(g, node, d.updateId, AddMember) in s.waits)
            && (sent.RmNames() != [] ==> WaitKey(g, node, d.updateId, RemoveMember) in s.waits)
            && (addWaits && older.AddNames() != [] && oldId != d.updateId ==> addWait !in s.waits)
            && (rmWaits && older.RmNames() != [] && oldId != d.updateId ==> rmWait !in s.waits)
            && s.current[g] == sent
  {
    var node, oldId, older := NodeOf(deviceId), key[..UPDATE_ID_LENGTH], d.pending[key];
    CollapsedMeaning(d, g, node, d.current[g], key);
    var (d2, cs2) := Collapsed(d, g, node, d.current[g]);
    var cs3 := if cs2.add.Some? then Completed(d2, g, cs2) else cs2;
    MemberWaitsRecorded(d2.waits, g, node, d.updateId, cs3, now, AddMember, oldId);
    MemberWaitsRecorded(d2.waits, g, node, d.updateId, cs3, now, RemoveMember, oldId);
  }

  /** Collapsing: the names of the awaited older lists join, and the records of those that named someone go. */
  lemma CollapsedMeaning(d: Device, g: GroupId, node: NodeId, cs: ChangeSet, key: string)
    requires PendingUnique(d) && key in d.pending && IsKeyOf(key, g)
    ensures var (d1, cs1) := Collapsed(d, g, node, cs);
            var older, oldId := d.pending[key], key[..UPDATE_ID_LENGTH];
            var addWait, rmWait := WaitKey(g, node, oldId, AddMember), WaitKey(g, node, oldId, RemoveMember);
            && Elements(cs1.AddNames()) ==
               Elements(cs.AddNames()) + (if addWait in d.waits then Elements(older.AddNames()) else {})
            && Elements(cs1.RmNames()) ==
               Elements(cs.RmNames()) + (if rmWait in d.waits then Elements(older.RmNames()) else {})
            && (older.AddNames() != [] ==> addWait !in d1.waits) && (older.RmNames() != [] ==> rmWait !in d1.waits)
            && d1 == d.(waits := d1.waits)
  {
    OnlyPendingKey(d, g, key);
    var older, oldId := d.pending[key], key[..UPDATE_ID_LENGTH];
    var addWait, rmWait := WaitKey(g, node, oldId, AddMember), WaitKey(g, node, oldId, RemoveMember);
    CollapsedAddsMeaning(d, addWait, older.AddNames(), cs);
    var (d1, cs1) := CollapsedAdds(d, addWait, older.AddNames(), cs);
    CollapsedRmsMeaning(d1, rmWait, older.RmNames(), cs1);
  }

  lemma MemberWaitsRecorded(waits: map<WaitKey, int>, g: GroupId, node: NodeId, id: UpdateId, cs: ChangeSet, now: int,
                            t: UpdateType, oldId: UpdateId)
    requires t == AddMember || t == RemoveMember
    ensures var after := WaitsRecorded(waits, g, node, id, cs, now);
            && (Carries(cs, t) ==> WaitKey(g, node, id, t) in after)
            && (oldId != id ==> (WaitKey(g, node, oldId, t) in after <==> WaitKey(g, node, oldId, t) in waits))
  {
    WaitsRecordedMeaning(waits, g, node, id, cs, now, WaitKey(g, node, id, t));
    WaitsRecordedMeaning(waits, g, node, id, cs, now, WaitKey(g, node, oldId, t));
  }

  lemma CollapsedAddsMeaning(d: Device, wait: WaitKey, names: seq<UserId>, cs: ChangeSet)
    ensures var (d1, cs1) := CollapsedAdds(d, wait, names, cs);
            && Elements(cs1.AddNames()) == Elements(cs.AddNames()) + (if wait in d.waits then Elements(names) else {})
            && cs1.rm == cs.rm
            && d1.waits == (if names == [] then d.waits else d.waits - {wait})
            && d1 == d.(waits := d1.waits)
  {
    AppendedAllMeaning(cs.AddNames(), names);
    assert names == [] ==> Elements(names) == {};
    assert wait !in d.waits ==> d.waits - {wait} == d.waits;
  }

  lemma CollapsedRmsMeaning(d: Device, wait: WaitKey, names: seq<UserId>, cs: ChangeSet)
    ensures var (d1, cs1) := CollapsedRms(d, wait, names, cs);
            && Elements(cs1.RmNames()) == Elements(cs.RmNames()) + (if wait in d.waits then Elements(names) else {})
            && cs1.add == cs.add
            && d1.waits == (if names == [] then d.waits else d.waits - {wait})
            && d1 == d.(waits := d1.waits)
  {
    AppendedAllMeaning(cs.RmNames(), names);
    assert names == [] ==> Elements(names) == {};
    assert wait !in d.waits ==> d.waits - {wait} == d.waits;
  }

  /**
   * Names that get into a set without such a list of its own, carried over or added by an edit between two devices,
   * travel under an empty update id. Over a whole send, for every device it serves and for add and remove lists alike,
   * there is a wait record for the list, and the ACK the device returns clears it exactly when the set had that list
   * when the send began.
   */
  lemma ListAckClearsExactlyWhen(d: Device, g: GroupId, freshId: UpdateId, rows: seq<UserId>, es: seq<Event>,
                                 deviceId: string, now: int, t: ListType, result: AckResult)
    requires StartsSend(d, g) && |freshId| == UPDATE_ID_LENGTH && forall e <- es :: DoesNotEndSend(e, g)
    ensures var s := Run(SendPrepared(d, g, freshId, rows), es);
            && g in s.current
            && var (s1, sent) := SetForDevice(s, g, deviceId, now);
               sent.List(t).Some? ==>
                 var record := WaitKey(g, NodeOf(deviceId), freshId, t);
                 && record in s1.waits
                 && (record !in AfterAck(s1, g, NodeOf(deviceId), Ack(t, sent.List(t).value.id, result)).waits
                     <==> d.current[g].List(t).Some?)
  {
    PreparingStartsSending(d, g, freshId, rows);
    ListsGoOn(SendPrepared(d, g, freshId, rows), es, g, freshId, d.current[g]);
    var s := Run(SendPrepared(d, g, freshId, rows), es);
    if SetForDevice(s, g, deviceId, now).1.List(t).Some? {
      ServedListAck(s, g, freshId, d.current[g], deviceId, now, t, result);
    }
  }

  lemma ServedListAck(d: Device, g: GroupId, id: UpdateId, begun: ChangeSet, deviceId: string, now: int, t: ListType,
                      result: AckResult)
    requires ListsSending(d, g, id, begun) && |id| == UPDATE_ID_LENGTH
    requires SetForDevice(d, g, deviceId, now).1.List(t).Some?
    ensures var (s, sent) := SetForDevice(d, g, deviceId, now);
            var record := WaitKey(g, NodeOf(deviceId), id, t);
            && record in s.waits
            && (record !in AfterAck(s, g, NodeOf(deviceId), Ack(t, sent.List(t).value.id, result)).waits
                <==> begun.List(t).Some?)
  {
    var (s, sent) := SetForDevice(d, g, deviceId, now);
    SerializingKeepsLists(d, g, deviceId, now, begun);
    SerializingRecords(d, g, deviceId, now, t);
    assert ListTravels(sent.List(t), begun.List(t), id);
  }

  /** There is a record under the id of the send for whatever is serialized. */
  lemma SerializingRecords(d: Device, g: GroupId, deviceId: string, now: int, t: UpdateType)
    requires g in d.current && Carries(SetForDevice(d, g, deviceId, now).1, t)
    ensures WaitKey(g, NodeOf(deviceId), d.updateId, t) in SetForDevice(d, g, deviceId, now).0.waits
  {
    var node := NodeOf(deviceId);
    var (d1, cs1) := Collapsed(d, g, node, d.current[g]);
    CollapsedFrame(d, g, node, d.current[g]);
    var cs2 := if cs1.add.Some? then Completed(d1, g, cs1) else cs1;
    WaitsRecordedMeaning(d1.waits, g, node, d.updateId, cs2, now, WaitKey(g, node, d.updateId, t));
  }

  // ---------- Collecting ACKs ----------

  /** The eight-byte prefix splits a key into update id and group id without ambiguity. */
  lemma KeySplitsUniquely(u: UpdateId, g: GroupId, v: UpdateId, h: GroupId)
    requires |u| == |v| == UPDATE_ID_LENGTH
    ensures u + g == v + h <==> u == v && g == h
    ensures IsKeyOf(u + g, h) <==> g == h
  {
    assert (u + g)[..UPDATE_ID_LENGTH] == u && (v + h)[..UPDATE_ID_LENGTH] == v;
    assert (u + g)[UPDATE_ID_LENGTH..] == g && (v + h)[UPDATE_ID_LENGTH..] == h;
  }

  /** Every pending set this ACK erases has no wait record left for its own update and group. */
  ghost predicate ErasesOnlyCollected(d: Device, g: GroupId, node: NodeId, ack: Ack) {
    var after := AfterAck(d, g, node, ack);
    forall k <- d.pending | |k| >= UPDATE_ID_LENGTH && k !in after.pending ::
      !Waiting(after.waits, k[UPDATE_ID_LENGTH..], k[..UPDATE_ID_LENGTH])
  }

  /** A device whose only pending set the ACK's key happens to spell, with its record still there. All its ids fit. */
  ghost function Colliding(g: GroupId, node: NodeId, ack: Ack): Device
    requires |ack.id + g| >= UPDATE_ID_LENGTH
  {
    var key := ack.id + g;
    Device("", "", map[], map[], map[], map[key := EMPTY_SET],
           map[WaitKey(key[UPDATE_ID_LENGTH..], node, key[..UPDATE_ID_LENGTH], SetName) := 0], false,
           seq(UPDATE_ID_LENGTH, _ => '0'), [])
  }

  /**
   * An ACK erases only collected sets, in every state whose ids fit, exactly when its own id has the fixed width (or is
   * too short to spell any key together with the group id). An id of another width can erase a set that is still
   * awaited.
   */
  lemma AcksEraseOnlyCollectedExactlyWhen(g: GroupId, node: NodeId, ack: Ack)
    ensures (forall d: Device | IdsFit(d) :: ErasesOnlyCollected(d, g, node, ack)) <==>
            |ack.id| == UPDATE_ID_LENGTH || |ack.id + g| < UPDATE_ID_LENGTH
  {
    if |ack.id| == UPDATE_ID_LENGTH || |ack.id + g| < UPDATE_ID_LENGTH {
      forall d: Device | IdsFit(d)
        ensures ErasesOnlyCollected(d, g, node, ack)
      {
        assert |ack.id| == UPDATE_ID_LENGTH ==> (ack.id + g)[..UPDATE_ID_LENGTH] == ack.id;
      }
    } else {
      var d := Colliding(g, node, ack);
      var key := ack.id + g;
      var record := WaitKey(key[UPDATE_ID_LENGTH..], node, key[..UPDATE_ID_LENGTH], SetName);
      assert record in AfterAck(d, g, node, ack).waits;
      assert key in d.pending;
      assert IdsFit(d);
      assert !ErasesOnlyCollected(d, g, node, ack);
    }
  }

  ghost predicate Acknowledges(e: Event, k: WaitKey) {
    && e.Receiving? && e.g == k.group && e.cs.Some? && NodeOf(e.deviceId) == k.node
    && exists a <- e.cs.value.acks :: a.id == k.id && a.typ == k.typ
  }

  /** No newer send of the group: its sends are the only steps that make new records or a new pending set for it. */
  predicate NoSendOf(g: GroupId, es: seq<Event>) {
    forall e <- es :: (e.Preparing? || e.Serializing? || e.Finishing?) ==> e.g != g
  }

  /** The update is off the books, or the group is still there and only unacknowledged original records are left. */
  ghost predicate Collecting(d: Device, es: seq<Event>, g: GroupId, id: UpdateId) {
    var now := Run(d, es);
    id + g !in now.pending ||
    (&& g in now.groups
     && (forall k <- now.waits | k.group == g && k.id == id :: k in d.waits && !Acknowledged(es, k))
     && exists k <- d.waits :: k.group == g && k.id == id && !Acknowledged(es, k))
  }

  ghost predicate Acknowledged(es: seq<Event>, k: WaitKey) {
    exists e <- es :: Acknowledges(e, k)
  }

  /**
   * ACK collection. Once every awaited (device, type) of an update has acknowledged it, in any order and mixed with
   * any other traffic, expired records included, its pending set is gone, unless a newer send of the group began.
   */
  lemma AllAcksCollectPendingSet(d: Device, es: seq<Event>, g: GroupId, id: UpdateId)
    requires IdsFit(d) && FreshIdsFit(es) && |id| == UPDATE_ID_LENGTH
    requires g in d.groups && Waiting(d.waits, g, id) && NoSendOf(g, es)
    requires forall k <- d.waits | k.group == g && k.id == id :: Acknowledged(es, k)
    ensures id + g !in Run(d, es).pending
  {
    RunCollects(d, es, g, id);
  }

  lemma {:induction false} RunCollects(d: Device, es: seq<Event>, g: GroupId, id: UpdateId)
    requires IdsFit(d) && FreshIdsFit(es) && |id| == UPDATE_ID_LENGTH
    requires g in d.groups && Waiting(d.waits, g, id) && NoSendOf(g, es)
    ensures Collecting(d, es, g, id)
  {
    if es != [] {
      var init, e := es[..|es| - 1], es[|es| - 1];
      assert es == init + [e];
      RunCollects(d, init, g, id);
      AtMostOnePendingSet(d, init);
      CollectingGoesOn(d, es, g, id);
    }
  }

  lemma CollectingGoesOn(d: Device, es: seq<Event>, g: GroupId, id: UpdateId)
    requires es != [] && Collecting(d, es[..|es| - 1], g, id) && IdsFit(Run(d, es[..|es| - 1]))
    requires FreshIdsFit([es[|es| - 1]]) && |id| == UPDATE_ID_LENGTH && NoSendOf(g, [es[|es| - 1]])
    ensures Collecting(d, es, g, id)
  {
    StepCollects(Run(d, es[..|es| - 1]), es[|es| - 1], g, id);
    AcknowledgedSplits(es);
  }

  lemma AcknowledgedSplits(es: seq<Event>)
    requires es != []
    ensures forall k ::
              Acknowledged(es, k) <==> Acknowledged(es[..|es| - 1], k) || Acknowledges(es[|es| - 1], k)
  {
    assert es == es[..|es| - 1] + [es[|es| - 1]];
  }

  lemma StepCollects(d: Device, e: Event, g: GroupId, id: UpdateId)
    requires IdsFit(d) && FreshIdsFit([e]) && |id| == UPDATE_ID_LENGTH && NoSendOf(g, [e])
    ensures id + g !in d.pending ==> id + g !in Step(d, e).pending
    ensures g in d.groups ==> id + g !in Step(d, e).pending || g in Step(d, e).groups
    ensures forall k <- Step(d, e).waits | k.group == g && k.id == id && g in d.groups ::
              k in d.waits && (Acknowledges(e, k) ==> id + g !in Step(d, e).pending)
    ensures forall k: WaitKey | k.group == g && k.id == id && Acknowledges(e, k) && g in d.groups ::
              id + g !in Step(d, e).pending || Waiting(Step(d, e).waits, g, id)
  {
    assert e in [e];
    match e {
      case Preparing(h, freshId, rows) =>
        PreparedFrame(d, h, freshId, rows);
      case Serializing(h, deviceId, hasSet, now) =>
        if SendsTo(d, h, deviceId, hasSet) {
          OtherGroupSerialized(d, h, deviceId, now, g);
        }
      case Finishing(h) =>
        KeySplitsUniquely(id, g, d.updateId, h);
      case Receiving(h, sender, deviceId, cs, now) =>
        ReceivedFrame(d, h, sender, deviceId, cs, now);
        if g in d.groups {
          ReceivingCollects(d, h, sender, deviceId, cs, now, g, id);
        }
      case Leaving(h) =>
        KeySplitsUniquely(id, g, id, h);
      case _ =>
        EditFrame(d, e);
    }
  }

  /** Serializing makes records for its own group only. */
  lemma OtherGroupSerialized(d: Device, h: GroupId, deviceId: string, now: int, g: GroupId)
    requires h in d.current && h != g
    ensures var s := SetForDevice(d, h, deviceId, now).0;
            && s == d.(current := s.current, waits := s.waits)
            && forall k <- s.waits | k.group == g :: k in d.waits
  {
    SerializedFrame(d, h, deviceId, now);
    forall k <- SetForDevice(d, h, deviceId, now).0.waits | k.group == g
      ensures k in d.waits
    {
      SerializedWaits(d, h, deviceId, now, k);
    }
  }

  lemma ReceivingCollects(d: Device, h: GroupId, sender: UserId, deviceId: string, cs: Option<ChangeSet>, now: int,
                          g: GroupId, id: UpdateId)
    requires g in d.groups && |id| == UPDATE_ID_LENGTH
    ensures var s := MessageReceived(d, h, sender, deviceId, cs, now).0;
            var e := Receiving(h, sender, deviceId, cs, now);
            && (id + g !in s.pending || g in s.groups)
            && (forall k <- s.waits | k.group == g && k.id == id :: Acknowledges(e, k) ==> id + g !in s.pending)
            && (forall k: WaitKey | k.group == g && k.id == id && Acknowledges(e, k) ::
                  id + g !in s.pending || Waiting(s.waits, g, id))
  {
    if cs.Some? {
      KeySplitsUniquely(id, g, id, h);
      if !IsSiblingLeave(d, h, sender, cs.value) {
        var d1 := if CreatesGroup(d, h, cs.value) then GroupInserted(d, h, cs.value) else d;
        if h in d1.groups {
          UpdatingCollects(d1, h, NodeOf(deviceId), cs.value, now, g, id);
        }
      }
    }
  }

  lemma UpdatingCollects(d: Device, h: GroupId, node: NodeId, cs: ChangeSet, now: int, g: GroupId, id: UpdateId)
    requires g in d.groups && h in d.groups
    ensures var s := GroupUpdated(d, h, node, cs, now);
            && g in s.groups
            && forall k: WaitKey | && k.group == g == h && k.id == id && k.node == node
                                   && exists a <- cs.acks :: a.id == k.id && a.typ == k.typ ::
                 k !in s.waits && (id + g !in s.pending || Waiting(s.waits, g, id))
  {
    GroupUpdatedFrame(d, h, node, cs, now);
    var d1 := d.(waits := Unexpired(d.waits, now - MK_STORE_TIME));
    AcksOnlyRemove(d1, h, node, cs.acks);
    if h == g && exists a <- cs.acks :: a.id == id {
      AcksSettle(d1, g, node, cs.acks, id);
    }
  }

  /** After ACKs that name the update, its pending set is gone or some record of it remains. */
  lemma {:induction false} AcksSettle(d: Device, g: GroupId, node: NodeId, acks: seq<Ack>, id: UpdateId)
    requires exists a <- acks :: a.id == id
    ensures var r := AfterAcks(d, g, node, acks); id + g !in r.pending || Waiting(r.waits, g, id)
  {
    var init, last := acks[..|acks| - 1], acks[|acks| - 1];
    assert acks == init + [last];
    if last.id != id {
      AcksSettle(d, g, node, init, id);
      var before, after := AfterAcks(d, g, node, init), AfterAcks(d, g, node, acks);
      if Waiting(before.waits, g, id) {
        var k :| k in before.waits && k.group == g && k.id == id;
        assert k in after.waits;
      }
    }
  }

  // ---------- Resending ----------

  /**
   * Outside a send, a stored set is never sent again: the lookup compares the records' eight-byte update ids with the
   * textual device id, which is longer.
   */
  lemma NeverResends(d: Device, es: seq<Event>, g: GroupId, deviceId: string)
    requires IdsFit(d) && FreshIdsFit(es)
    requires !Run(d, es).updateInProgress && |deviceId| != UPDATE_ID_LENGTH
    ensures WithoutSend(Run(d, es), g, deviceId, false).1 == None
  {
    AtMostOnePendingSet(d, es);
  }

  // ---------- A set without updates ----------

  /** What createChangeSetDevice returns. */
  ghost function SerializingCode(d: Device, g: GroupId, deviceId: string, hasSet: bool): Code {
    if SendsTo(d, g, deviceId, hasSet) then Success else WithoutSend(d, g, deviceId, hasSet).0
  }

  /** Over a whole send, serializing for a device locks up exactly when the set had no update when the send began. */
  lemma SendLocksUpExactlyWhen(d: Device, g: GroupId, freshId: UpdateId, rows: seq<UserId>, es: seq<Event>,
                               deviceId: string)
    requires StartsSend(d, g) && deviceId != "" && forall e <- es :: DuringSend(e)
    ensures SerializingCode(Run(SendPrepared(d, g, freshId, rows), es), g, deviceId, false) == SelfDeadlock <==>
            !d.current[g].HasUpdates()
  {
    PreparingKeepsHasUpdates(d, g, freshId, rows);
    RunKeepsHasUpdates(SendPrepared(d, g, freshId, rows), es, g);
  }

  lemma PreparingKeepsHasUpdates(d: Device, g: GroupId, freshId: UpdateId, rows: seq<UserId>)
    requires StartsSend(d, g)
    ensures var p := SendPrepared(d, g, freshId, rows);
            p.updateInProgress && g in p.current && (p.current[g].HasUpdates() <==> d.current[g].HasUpdates())
  {
    var d0 := SendBegun(d, g, freshId);
    StampedAllFrame(d0, g, d.current[g]);
    StampedAllKeepsHasUpdates(d0, g, d.current[g]);
    PreparingStartsSending(d, g, freshId, rows);
  }

  lemma StampedAllKeepsHasUpdates(d: Device, g: GroupId, cs: ChangeSet)
    requires g in d.groups
    ensures var stamped := StampedAll(d, g, cs).1;
            && (stamped.name.Some? <==> cs.name.Some?) && (stamped.avatar.Some? <==> cs.avatar.Some?)
            && (stamped.burn.Some? <==> cs.burn.Some?) && stamped.burnMessage == cs.burnMessage
  {
    StampedFrame(d, g, SetName, cs);
    var (d1, cs1) := Stamped(d, g, SetName, cs);
    StampedFrame(d1, g, SetAvatar, cs1);
  }

  lemma {:induction false} RunKeepsHasUpdates(d: Device, es: seq<Event>, g: GroupId)
    requires d.updateInProgress && g in d.current && forall e <- es :: DuringSend(e)
    ensures var s := Run(d, es);
            s.updateInProgress && g in s.current && (s.current[g].HasUpdates() <==> d.current[g].HasUpdates())
  {
    if es != [] {
      RunKeepsHasUpdates(d, es[..|es| - 1], g);
      StepKeepsHasUpdates(Run(d, es[..|es| - 1]), es[|es| - 1], g);
    }
  }

  lemma StepKeepsHasUpdates(d: Device, e: Event, g: GroupId)
    requires d.updateInProgress && g in d.current && DuringSend(e)
    ensures var s := Step(d, e);
            s.updateInProgress && g in s.current && (s.current[g].HasUpdates() <==> d.current[g].HasUpdates())
  {
    match e {
      case Serializing(h, deviceId, hasSet, now) =>
        if SendsTo(d, h, deviceId, hasSet) {
          CollapsedFrame(d, h, NodeOf(deviceId), d.current[h]);
        }
      case Receiving(h, sender, deviceId, cs, now) =>
        ReceivedFrame(d, h, sender, deviceId, cs, now);
    }
  }

  /** Such a set takes no more than undoing an edit that was never made. */
  lemma UndoingNothingLocksUp(d: Device, g: GroupId, user: UserId, freshId: UpdateId, rows: seq<UserId>,
                              deviceId: string)
    requires g != "" && g in d.groups && g !in d.current && !d.updateInProgress && user != "" && deviceId != ""
    ensures var s := Run(Run(d, [Editing(g, UndoAddUser(user))]), [Preparing(g, freshId, rows)]);
            SerializingCode(s, g, deviceId, false) == SelfDeadlock
  {
    var edited := WithCurrent(d, g, EMPTY_SET);
    NothingUndone(d, g, user);
    RunOfOne(d, Editing(g, UndoAddUser(user)));
    RunOfOne(edited, Preparing(g, freshId, rows));
    SendLocksUpExactlyWhen(edited, g, freshId, rows, [], deviceId);
  }

  lemma NothingUndone(d: Device, g: GroupId, user: UserId)
    requires g != "" && g in d.groups && g !in d.current && user != ""
    ensures Step(d, Editing(g, UndoAddUser(user))) == WithCurrent(d, g, EMPTY_SET)
  {
  }

  lemma RunOfOne(d: Device, e: Event)
    ensures Run(d, [e]) == Step(d, e)
  {
    assert [e][..0] == [];
  }
}
