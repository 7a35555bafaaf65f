/**
 * One device of the group protocol, in the form the operations run in: fields updated in place, lists and
 * tables walked entry by entry. Every operation is proved to have the meaning GroupProtocol gives it.
 */
module GroupDevice {
  import opened Wrappers
  import opened VectorClocks
  import opened UpdateOrder
  import opened Registers
  import opened ChangeSets
  import opened MemberUpdates
  import opened GroupProtocol

  /** The change set attribute of a message: absent, not base64 or not a serialized set, or a set. */
  datatype Attached = NoSet | Undecodable | Decoded(cs: ChangeSet) {
    function Set(): Option<ChangeSet> {
      if Decoded? then Some(cs) else None
    }
  }

  class GroupDevice {
    const ownUser: UserId
    const ownNode: NodeId

    // The persistent tables.
    var groups: map<GroupId, Group>
    var clocks: map<(GroupId, UpdateType), LocalClock>
    var waits: map<WaitKey, int>

    // The in-memory state.
    var currentChangeSets: map<GroupId, ChangeSet>
    var pendingChangeSets: map<string, ChangeSet>
    var updateInProgress: bool
    var updateIdGlobal: UpdateId
    var sentRemoveTo: seq<string>

    ghost function State(): Device
      reads this
    {
      Device(ownUser, ownNode, groups, clocks, currentChangeSets, pendingChangeSets, waits,
             updateInProgress, updateIdGlobal, sentRemoveTo)
    }

    constructor (user: UserId, deviceId: string)
      ensures State() == Device(user, NodeOf(deviceId), map[], map[], map[], map[], map[], false,
                                seq(UPDATE_ID_LENGTH, _ => '\0'), [])
    {
      ownUser, ownNode := user, NodeOf(deviceId);
      groups, clocks, waits := map[], map[], map[];
      currentChangeSets, pendingChangeSets, updateInProgress := map[], map[], false;
      updateIdGlobal := seq(UPDATE_ID_LENGTH, _ => '\0');
      sentRemoveTo := [];
    }

    // ---------- Receiving ----------

    method RemoveFromPendingChangeSets(key: string)
      modifies this`pendingChangeSets
      ensures pendingChangeSets == old(pendingChangeSets) - {key}
    {
      var rest := pendingChangeSets.Keys;
      while rest != {}
        invariant pendingChangeSets == old(pendingChangeSets)
        invariant key in pendingChangeSets ==> key in rest
      {
        var k :| k in rest;
        if k == key {
          pendingChangeSets := pendingChangeSets - {k};
          return;
        }
        rest := rest - {k};
      }
    }

    method ProcessAcks(acks: seq<Ack>, groupId: GroupId, node: NodeId, now: int) returns (code: Code)
      modifies this`waits, this`pendingChangeSets
      ensures code == Success && State() == ProcessedAcks(old(State()), groupId, node, acks, now)
    {
      // Clean old records first: this enables proper cleanup of pending change sets.
      waits := Unexpired(waits, now - MK_STORE_TIME);
      ghost var start := State();
      for i := 0 to |acks|
        invariant State() == AfterAcks(start, groupId, node, acks[..i])
      {
        var ack := acks[i];
        waits := waits - {WaitKey(groupId, node, ack.id, ack.typ)};
        var moreChangeSets := Waiting(waits, groupId, ack.id);
        if !moreChangeSets {
          RemoveFromPendingChangeSets(ack.id + groupId);
        }
        assert acks[..i + 1][..i] == acks[..i];
      }
      assert acks[..|acks|] == acks;
      code := Success;
    }

    method ProcessUpdate(t: MetaType, update: Update, groupId: GroupId) returns (code: Code, ack: Ack)
      requires groupId in groups
      modifies this`groups, this`clocks
      ensures code == Success
      ensures State() == MetaReceived(old(State()), groupId, t, Some(update))
      ensures [ack] == MetaAcks(old(State()), groupId, t, Some(update))
    {
      var local := if (groupId, t) in clocks then Some(clocks[(groupId, t)]) else None;
      var verdict := Judge(update, Register(groups[groupId].Meta(t), local));
      WithOwnRegister(State(), groupId, t);
      if verdict.None? {
        return GenericError, Ack(t, update.id, ResultNone);
      }
      if IsAccepted(verdict.value) {
        groups := groups[groupId := groups[groupId].WithMeta(t, update.value)];
        clocks := clocks[(groupId, t) := LocalClock(update.clock, StoredId(update.id))];
      }
      code, ack := Success, Ack(t, update.id, verdict.value);
    }

    /** The lists are those reported to the user interface. */
    method ProcessUpdateMembers(cs: ChangeSet, groupId: GroupId)
      returns (code: Code, acks: seq<Ack>, added: seq<UserId>, removed: seq<UserId>)
      requires groupId in groups && ChangesMembers(cs)
      modifies this`groups
      ensures code == Success && acks == MemberAcks(cs)
      ensures State() == MembersReceived(old(State()), groupId, cs)
      ensures var before, after := old(groups[groupId].members), groups[groupId].members;
              Reports(added, after - before) && Reports(removed, before - after) <==>
              NoSurplusAdds(before, cs.AddNames(), cs.RmNames())
    {
      acks := [];
      if cs.add.Some? {
        acks := acks + [Ack(AddMember, cs.add.value.id, AcceptedOk)];
      }
      if cs.rm.Some? {
        acks := acks + [Ack(RemoveMember, cs.rm.value.id, AcceptedOk)];
      }
      var group := groups[groupId];
      var members;
      members, added, removed := UpdateMembers(group.members, cs.AddNames(), cs.RmNames());
      groups := groups[groupId := group.(members := members)];
      code := Success;
    }

    method InsertNewGroup(groupId: GroupId, cs: ChangeSet)
      modifies this`groups
      ensures State() == GroupInserted(old(State()), groupId, cs)
    {
      var name := if cs.name.Some? then cs.name.value.value else Text("");
      var group := Group(name, Text(""), BurnTime(0, 0), {});
      groups := groups[groupId := group.(members := {ownUser})];
    }

    method ProcessLeaveGroup(groupId: GroupId) returns (code: Code)
      modifies this`waits, this`clocks, this`pendingChangeSets, this`groups
      ensures code == Success && State() == LeftGroup(old(State()), groupId)
    {
      waits := map k | k in waits && k.group != groupId :: waits[k];
      clocks := map k | k in clocks && k.0 != groupId :: clocks[k];
      DropPending(groupId);
      groups := groups - {groupId};
      code := Success;
    }

    method DropPending(groupId: GroupId)
      modifies this`pendingChangeSets
      ensures pendingChangeSets ==
              map k | k in old(pendingChangeSets) && !IsKeyOf(k, groupId) :: old(pendingChangeSets)[k]
    {
      var rest := pendingChangeSets.Keys;
      while rest != {}
        invariant rest <= pendingChangeSets.Keys
        invariant pendingChangeSets.Keys <= old(pendingChangeSets).Keys
        invariant forall k <- pendingChangeSets :: pendingChangeSets[k] == old(pendingChangeSets)[k]
        invariant forall k <- old(pendingChangeSets) :: k in rest || (k in pendingChangeSets <==> !IsKeyOf(k, groupId))
      {
        var k :| k in rest;
        rest := rest - {k};
        if IsKeyOf(k, groupId) {
          pendingChangeSets := pendingChangeSets - {k};
        }
      }
    }

    method HasSentRemove(sentTo: string) returns (found: bool)
      ensures found <==> sentTo in sentRemoveTo
    {
      for i := 0 to |sentRemoveTo|
        invariant sentTo !in sentRemoveTo[..i]
      {
        if sentRemoveTo[i] == sentTo {
          return true;
        }
      }
      assert sentRemoveTo[..|sentRemoveTo|] == sentRemoveTo;
      found := false;
    }

    /** The part of processReceivedChangeSet for a group the device does not have. */
    method AnswerForUnknownGroup(cs: ChangeSet, groupId: GroupId, deviceId: string) returns (rmSet: ChangeSet)
      modifies this`sentRemoveTo
      ensures rmSet == if AsksForRemoval(old(State()), groupId, deviceId, cs) then RemoveRequest(ownUser) else EMPTY_SET
      ensures sentRemoveTo == if AsksForRemoval(old(State()), groupId, deviceId, cs)
                              then Remembered(old(sentRemoveTo), groupId + deviceId) else old(sentRemoveTo)
    {
      rmSet := EMPTY_SET;
      if cs.avatar.Some? || cs.burn.Some? || cs.name.Some? || cs.rm.Some? {
        if cs.rm.Some? && |cs.rm.value.names| == 1 && cs.rm.value.names[0] == ownUser {
          return;
        }
        var sentTo := groupId + deviceId;
        var alreadySent := HasSentRemove(sentTo);
        if alreadySent {
          return;
        }
        rmSet := EMPTY_SET.(rm := Some(NameList("", [ownUser])));
        if |sentRemoveTo| > 30 {
          sentRemoveTo := sentRemoveTo[1..];
        }
        sentRemoveTo := sentRemoveTo + [sentTo];
      }
    }

    method ProcessReceivedChangeSet(cs: ChangeSet, groupId: GroupId, sender: UserId, deviceId: string, now: int)
      returns (code: Code, ackRmSet: ChangeSet)
      modifies this
      ensures code == Success
      ensures (State(), ackRmSet) == ChangeSetReceived(old(State()), groupId, sender, deviceId, cs, now)
    {
      ackRmSet := EMPTY_SET;
      var fromSibling := sender == ownUser;
      if fromSibling && groupId in groups &&
         cs.rm.Some? && |cs.rm.value.names| == 1 && cs.rm.value.names[0] == ownUser {
        code := ProcessLeaveGroup(groupId);
        return;
      }
      if groupId !in groups && cs.add.Some? && |cs.add.value.names| > 0 {
        InsertNewGroup(groupId, cs);
      }
      if groupId !in groups {
        ackRmSet := AnswerForUnknownGroup(cs, groupId, deviceId);
        return Success, ackRmSet;
      }
      var acks := UpdateGroup(cs, groupId, NodeOf(deviceId), now);
      code, ackRmSet := Success, EMPTY_SET.(acks := acks);
    }

    method ProcessMeta(t: MetaType, update: Option<Update>, groupId: GroupId) returns (acks: seq<Ack>)
      requires groupId in groups
      modifies this`groups, this`clocks
      ensures State() == MetaReceived(old(State()), groupId, t, update)
      ensures acks == MetaAcks(old(State()), groupId, t, update)
    {
      acks := [];
      if update.Some? {
        var _, ack := ProcessUpdate(t, update.value, groupId);
        acks := [ack];
      }
    }

    method ProcessMetadata(cs: ChangeSet, groupId: GroupId) returns (acks: seq<Ack>)
      requires groupId in groups
      modifies this`groups, this`clocks
      ensures State() == MetadataReceived(old(State()), groupId, cs)
      ensures acks == MetadataAcks(old(State()), groupId, cs)
    {
      ghost var d := State();
      MetaReceivedRegisters(d, groupId, SetName, cs.name, SetAvatar);
      MetaReceivedRegisters(d, groupId, SetName, cs.name, SetBurn);
      var nameAcks := ProcessMeta(SetName, cs.name, groupId);
      MetaReceivedRegisters(State(), groupId, SetAvatar, cs.avatar, SetBurn);
      var avatarAcks := ProcessMeta(SetAvatar, cs.avatar, groupId);
      var burnAcks := ProcessMeta(SetBurn, cs.burn, groupId);
      acks := nameAcks + avatarAcks + burnAcks;
    }

    /** The part of processReceivedChangeSet for a known group. */
    method UpdateGroup(cs: ChangeSet, groupId: GroupId, node: NodeId, now: int) returns (acks: seq<Ack>)
      requires groupId in groups
      modifies this
      ensures State() == GroupUpdated(old(State()), groupId, node, cs, now)
      ensures acks == AcksFor(old(State()), groupId, cs)
    {
      AcksKeepGroups(State(), groupId, node, cs.acks, now);
      if |cs.acks| > 0 {
        var _ := ProcessAcks(cs.acks, groupId, node, now);
      }
      MetadataAcksStable(old(State()), State(), groupId, cs);
      var metaAcks := ProcessMetadata(cs, groupId);
      assert metaAcks == MetadataAcks(old(State()), groupId, cs);
      var burnAcks := if cs.burnMessage.Some? then [Ack(BurnMessage, cs.burnMessage.value.id, ResultNone)] else [];
      var memberAcks := ProcessMembers(cs, groupId);
      acks := metaAcks + burnAcks + memberAcks;
    }

    method ProcessMembers(cs: ChangeSet, groupId: GroupId) returns (acks: seq<Ack>)
      requires groupId in groups
      modifies this`groups
      ensures State() == if ChangesMembers(cs) then MembersReceived(old(State()), groupId, cs) else old(State())
      ensures acks == MemberAcks(cs)
    {
      acks := [];
      if (cs.add.Some? && |cs.add.value.names| > 0) || (cs.rm.Some? && |cs.rm.value.names| > 0) {
        var _, memberAcks, _, _ := ProcessUpdateMembers(cs, groupId);
        acks := memberAcks;
      }
    }

    /** The reply is sent to the sending device as a command message. */
    method CheckAndProcessChangeSet(attached: Attached, groupId: GroupId, sender: UserId, deviceId: string, now: int)
      returns (code: Code, reply: Option<ChangeSet>)
      modifies this
      ensures attached.Undecodable? ==> code == CorruptData && State() == old(State()) && reply == None
      ensures !attached.Undecodable? ==>
                code == Success
                && (State(), reply) == MessageReceived(old(State()), groupId, sender, deviceId, attached.Set(), now)
    {
      if attached.NoSet? {
        if groupId in groups {
          return Success, None;
        }
        // An unsolicited message: tell the sender to remove this user.
        return Success, Some(EMPTY_SET.(rm := Some(NameList("", [ownUser]))));
      }
      if attached.Undecodable? {
        return CorruptData, None;
      }
      var ackRmSet;
      code, ackRmSet := ProcessReceivedChangeSet(attached.cs, groupId, sender, deviceId, now);
      reply := if |ackRmSet.acks| > 0 || ackRmSet.rm.Some? then Some(ackRmSet) else None;
    }

    // ---------- Editing the current change set ----------

    method GetCurrentGroupChangeSet(groupId: GroupId) returns (cs: Option<ChangeSet>)
      modifies this`currentChangeSets
      ensures cs == Editable(old(State()), groupId)
      ensures State() == if cs.Some? then WithCurrent(old(State()), groupId, cs.value) else old(State())
    {
      if groupId in currentChangeSets {
        assert currentChangeSets[groupId := currentChangeSets[groupId]] == currentChangeSets;
        return Some(currentChangeSets[groupId]);
      }
      if groupId !in groups {
        return None;
      }
      currentChangeSets := currentChangeSets[groupId := EMPTY_SET];
      cs := Some(EMPTY_SET);
    }

    method AddAddName(cs: ChangeSet, name: UserId) returns (r: ChangeSet)
      ensures r == AddName(cs, name)
    {
      var list := cs.add.GetOr(NameList("", []));
      var names := AppendUnlessPresent(list.names, name);
      r := cs.(add := Some(list.(names := names)));
    }

    method AddRemoveName(cs: ChangeSet, name: UserId) returns (r: ChangeSet)
      ensures r == RmName(cs, name)
    {
      var list := cs.rm.GetOr(NameList("", []));
      var names := AppendUnlessPresent(list.names, name);
      r := cs.(rm := Some(list.(names := names)));
    }

    method RemoveAddName(cs: ChangeSet, name: UserId) returns (r: ChangeSet)
      ensures r == UndoAdd(cs, name)
    {
      if cs.add.None? {
        return cs;
      }
      var names := RemoveSwappingLast(cs.add.value.names, name);
      r := cs.(add := Some(cs.add.value.(names := names)));
    }

    method RemoveRmName(cs: ChangeSet, name: UserId) returns (r: ChangeSet)
      ensures r == UndoRm(cs, name)
    {
      if cs.rm.None? {
        return cs;
      }
      var names := RemoveSwappingLast(cs.rm.value.names, name);
      r := cs.(rm := Some(cs.rm.value.(names := names)));
    }

    /** The edits of the application interface: addUser, removeUser, setGroupName and so on. */
    method EditChangeSet(groupId: GroupId, e: Edit) returns (code: Code)
      modifies this`currentChangeSets
      ensures code == EditCode(old(State()), groupId, e) && State() == Edited(old(State()), groupId, e)
    {
      code := ArgumentCode(groupId, e, ownUser);
      if code != Success {
        return;
      }
      var found := GetCurrentGroupChangeSet(groupId);
      if found.None? {
        return NoSuchActiveGroup;
      }
      var cs := EditedSet(found.value, e);
      currentChangeSets := currentChangeSets[groupId := cs];
    }

    method EditedSet(cs: ChangeSet, e: Edit) returns (r: ChangeSet)
      ensures r == EditSet(cs, e, ownUser)
    {
      match e {
        case AddUser(u) =>
          r := RemoveRmName(cs, u);
          r := AddAddName(r, u);
        case RemoveUser(u, _) =>
          r := RemoveAddName(cs, u);
          r := AddRemoveName(r, u);
        case UndoAddUser(u) =>
          r := RemoveAddName(cs, u);
        case UndoRemoveUser(u) =>
          r := RemoveRmName(cs, u);
        case SetMeta(t, value) =>
          r := SetValue(cs, t, value);
        case BurnGroupMessages(ids) =>
          r := BurnMessages(cs, ids, ownUser);
      }
    }

    method CancelGroupChangeSet(groupId: GroupId) returns (code: Code)
      modifies this`currentChangeSets
      ensures code == if groupId == "" then DataMissing else Success
      ensures State() == Cancelled(old(State()), groupId)
    {
      if groupId == "" {
        return DataMissing;
      }
      currentChangeSets := currentChangeSets - {groupId};
      code := Success;
    }

    method CreateNewGroup(groupId: GroupId, name: string)
      modifies this`currentChangeSets
      ensures State() == GroupCreated(old(State()), groupId, name)
    {
      if groupId !in currentChangeSets {
        currentChangeSets := currentChangeSets[groupId := EMPTY_SET];
      }
      var cs := RemoveRmName(currentChangeSets[groupId], ownUser);
      cs := AddAddName(cs, ownUser);
      if name != "" {
        cs := SetValue(cs, SetName, Some(Text(name)));
      }
      currentChangeSets := currentChangeSets[groupId := cs];
    }

    // ---------- Sending ----------

    /** The first entry of the pending map whose key ends with the group id. */
    method GetPendingGroupChangeSet(groupId: GroupId) returns (cs: Option<ChangeSet>)
      requires PendingUnique(State())
      ensures var key := PendingKey(State(), groupId);
              cs == if key.Some? then Some(pendingChangeSets[key.value]) else None
    {
      var rest := pendingChangeSets.Keys;
      while rest != {}
        invariant forall k <- pendingChangeSets :: k in rest || !IsKeyOf(k, groupId)
      {
        var k :| k in rest;
        if k in pendingChangeSets && IsKeyOf(k, groupId) {
          OnlyPendingKey(State(), groupId, k);
          return Some(pendingChangeSets[k]);
        }
        rest := rest - {k};
      }
      cs := None;
    }

    /** Counts up the local clock and stamps the update with it; clock and value become the group's own. */
    method PrepareChangeSetClocks(groupId: GroupId, cs: ChangeSet, t: MetaType) returns (r: ChangeSet)
      requires groupId in groups
      modifies this`clocks, this`groups
      ensures (State(), r) == Stamped(old(State()), groupId, t, cs)
      ensures groupId in groups && groups[groupId].members == old(groups[groupId].members) && r.add == cs.add
    {
      if cs.Meta(t).None? {
        return cs;
      }
      var vc := if (groupId, t) in clocks then clocks[(groupId, t)].clock else map[];
      vc := Increment(vc, ownNode);
      var value := cs.Meta(t).value.value;
      r := cs.WithMeta(t, Some(Update(updateIdGlobal, vc, value)));
      clocks := clocks[(groupId, t) := LocalClock(vc, updateIdGlobal)];
      groups := groups[groupId := groups[groupId].WithMeta(t, value)];
    }

    method AddMissingMetaData(groupId: GroupId, cs: ChangeSet) returns (r: ChangeSet)
      ensures r == Completed(State(), groupId, cs)
    {
      r := cs;
      var group := if groupId in groups then groups[groupId] else Group(Text(""), Text(""), BurnTime(0, 0), {});
      if r.name.None? {
        r := AddStored(groupId, r, SetName, group.name);
      }
      if r.avatar.None? {
        r := AddStored(groupId, r, SetAvatar, group.avatar);
      }
      if r.burn.None? {
        r := AddStored(groupId, r, SetBurn, group.burn);
      }
    }

    /** prepareChangeSetClocks without counting up: the stored clock goes out again under the id of this send. */
    method AddStored(groupId: GroupId, cs: ChangeSet, t: MetaType, value: Payload) returns (r: ChangeSet)
      ensures var clock := Register(value, Local(State(), groupId, t)).Clock();
              r == cs.WithMeta(t, Some(Update(updateIdGlobal, clock, value)))
    {
      var vc := if (groupId, t) in clocks then clocks[(groupId, t)].clock else map[];
      r := cs.WithMeta(t, Some(Update(updateIdGlobal, vc, value)));
    }

    method GetAllGroupMembers(groupId: GroupId) returns (rows: seq<UserId>)
      requires groupId in groups
      ensures Lists(rows, groups[groupId].members)
    {
      rows := [];
      var rest := groups[groupId].members;
      while rest != {}
        invariant Distinct(rows) && Elements(rows) * rest == {}
        invariant Elements(rows) + rest == groups[groupId].members
      {
        var m :| m in rest;
        assert m !in Elements(rows) * rest;
        rest, rows := rest - {m}, rows + [m];
      }
    }

    method AddExistingMembers(cs: ChangeSet, rows: seq<UserId>) returns (r: ChangeSet)
      requires cs.add.Some?
      ensures r == cs.(add := Some(cs.add.value.(names := AppendedAll(cs.AddNames(), rows))))
    {
      r := cs;
      for i := 0 to |rows|
        invariant r == cs.(add := Some(cs.add.value.(names := AppendedAll(cs.AddNames(), rows[..i]))))
      {
        AppendedAllSplit(cs.AddNames(), rows[..i], rows[i]);
        assert rows[..i + 1] == rows[..i] + [rows[i]];
        r := AddAddName(r, rows[i]);
      }
      assert rows[..|rows|] == rows;
    }

    method PrepareAdds(groupId: GroupId, cs: ChangeSet) returns (r: ChangeSet, rows: seq<UserId>)
      requires groupId in groups
      modifies this`groups
      ensures (State(), r) == AddsPrepared(old(State()), groupId, cs, rows)
      ensures cs.add.Some? ==> Lists(rows, old(groups[groupId].members) + Elements(cs.AddNames()))
    {
      r, rows := cs, [];
      if cs.add.Some? {
        r := r.(add := Some(cs.add.value.(id := updateIdGlobal)));
        var members := groups[groupId].members;
        var names := cs.add.value.names;
        for i := 0 to |names|
          invariant members == groups[groupId].members + Elements(names[..i])
        {
          assert names[..i + 1] == names[..i] + [names[i]];
          if names[i] !in members {
            members := members + {names[i]};
          }
        }
        assert names[..|names|] == names;
        groups := groups[groupId := groups[groupId].(members := members)];
        r := AddMissingMetaData(groupId, r);
        rows := GetAllGroupMembers(groupId);
        r := AddExistingMembers(r, rows);
      }
    }

    method PrepareRemoves(groupId: GroupId, cs: ChangeSet) returns (r: ChangeSet)
      requires groupId in groups
      modifies this`groups
      ensures (State(), r) == RemovesPrepared(old(State()), groupId, cs)
    {
      r := cs;
      if cs.rm.Some? {
        r := cs.(rm := Some(cs.rm.value.(id := updateIdGlobal)));
        var members := groups[groupId].members;
        var names := cs.rm.value.names;
        for i := 0 to |names|
          invariant members == groups[groupId].members - (Elements(names[..i]) - {ownUser})
        {
          assert names[..i + 1] == names[..i] + [names[i]];
          // Removing myself does not update the table: that is part of leaving the group.
          if names[i] == ownUser {
            continue;
          }
          members := members - {names[i]};
        }
        assert names[..|names|] == names;
        groups := groups[groupId := groups[groupId].(members := members)];
      }
    }

    method PrepareMetadata(groupId: GroupId, cs: ChangeSet) returns (r: ChangeSet)
      requires groupId in groups
      modifies this`clocks, this`groups
      ensures (State(), r) == StampedAll(old(State()), groupId, cs)
      ensures groupId in groups && groups[groupId].members == old(groups[groupId].members) && r.add == cs.add
    {
      r := PrepareChangeSetClocks(groupId, cs, SetName);
      r := PrepareChangeSetClocks(groupId, r, SetAvatar);
      r := PrepareChangeSetClocks(groupId, r, SetBurn);
    }

    method PrepareMembers(groupId: GroupId, cs: ChangeSet) returns (r: ChangeSet, rows: seq<UserId>)
      requires groupId in groups
      modifies this`groups
      ensures var (d, added) := AddsPrepared(old(State()), groupId, cs, rows);
              (State(), r) == RemovesPrepared(d, groupId, added)
      ensures cs.add.Some? ==> Lists(rows, old(groups[groupId].members) + Elements(cs.AddNames()))
    {
      r, rows := PrepareAdds(groupId, cs);
      r := PrepareRemoves(groupId, r);
    }

    method BeginSend(groupId: GroupId, cs: ChangeSet, freshId: UpdateId)
      requires groupId in currentChangeSets && cs == currentChangeSets[groupId]
      modifies this`updateInProgress, this`updateIdGlobal, this`groups
      ensures State() == SendBegun(old(State()), groupId, freshId)
      ensures groupId in groups && groups[groupId].members == StartingMembers(old(State()), groupId)
    {
      updateInProgress, updateIdGlobal := true, freshId;
      if groupId !in groups {
        InsertNewGroup(groupId, cs);
      }
    }

    method PrepareChangeSetSend(groupId: GroupId, freshId: UpdateId) returns (code: Code, rows: seq<UserId>)
      modifies this
      ensures code == SendPreparedCode(old(State()), groupId)
      ensures State() == SendPrepared(old(State()), groupId, freshId, rows)
      ensures StartsSend(old(State()), groupId) && old(currentChangeSets[groupId]).add.Some? ==>
                Lists(rows, StartingMembers(old(State()), groupId)
                            + Elements(old(currentChangeSets[groupId]).AddNames()))
    {
      rows := [];
      if groupId == "" {
        return DataMissing, rows;
      }
      if groupId !in currentChangeSets {
        return Success, rows;
      }
      if updateInProgress {
        return GroupUpdateRunning, rows;
      }
      var cs := currentChangeSets[groupId];
      BeginSend(groupId, cs, freshId);
      cs := PrepareMetadata(groupId, cs);
      if cs.burnMessage.Some? {
        cs := cs.(burnMessage := Some(cs.burnMessage.value.(id := updateIdGlobal)));
      }
      cs, rows := PrepareMembers(groupId, cs);
      currentChangeSets := currentChangeSets[groupId := cs];
      code := Success;
    }

    /** Copies the names of an older add list, unless the device has acknowledged them, and drops the older record. */
    method CollapseAdds(cs: ChangeSet, wait: WaitKey, names: seq<UserId>) returns (r: ChangeSet)
      modifies this`waits
      ensures (State(), r) == CollapsedAdds(old(State()), wait, names, cs)
    {
      r := cs;
      if wait !in waits {
        return;
      }
      ghost var list := cs.add.GetOr(NameList("", []));
      for i := 0 to |names|
        invariant waits == if i == 0 then old(waits) else old(waits) - {wait}
        invariant r == if i == 0 then cs else cs.(add := Some(list.(names := AppendedAll(list.names, names[..i]))))
      {
        AppendedAllSplit(list.names, names[..i], names[i]);
        assert names[..i + 1] == names[..i] + [names[i]];
        r := AddAddName(r, names[i]);
        waits := waits - {wait};
      }
      assert names[..|names|] == names;
    }

    method CollapseRemoves(cs: ChangeSet, wait: WaitKey, names: seq<UserId>) returns (r: ChangeSet)
      modifies this`waits
      ensures (State(), r) == CollapsedRms(old(State()), wait, names, cs)
    {
      r := cs;
      if wait !in waits {
        return;
      }
      ghost var list := cs.rm.GetOr(NameList("", []));
      for i := 0 to |names|
        invariant waits == if i == 0 then old(waits) else old(waits) - {wait}
        invariant r == if i == 0 then cs else cs.(rm := Some(list.(names := AppendedAll(list.names, names[..i]))))
      {
        AppendedAllSplit(list.names, names[..i], names[i]);
        assert names[..i + 1] == names[..i] + [names[i]];
        r := AddRemoveName(r, names[i]);
        waits := waits - {wait};
      }
      assert names[..|names|] == names;
    }

    method CollapsePending(groupId: GroupId, node: NodeId, cs: ChangeSet) returns (r: ChangeSet)
      requires PendingUnique(State())
      modifies this`waits
      ensures (State(), r) == Collapsed(old(State()), groupId, node, cs)
    {
      r := cs;
      ghost var start := State();
      ghost var key := PendingKey(start, groupId);
      var rest := pendingChangeSets.Keys;
      while rest != {}
        invariant rest <= pendingChangeSets.Keys
        invariant (State(), r) ==
                  if key.Some? && key.value !in rest then Collapsed(start, groupId, node, cs) else (start, cs)
      {
        var k :| k in rest;
        rest := rest - {k};
        if !IsKeyOf(k, groupId) {
          continue;
        }
        OnlyPendingKey(start, groupId, k);
        var oldUpdateId, oldChangeSet := k[..UPDATE_ID_LENGTH], pendingChangeSets[k];
        if oldChangeSet.add.Some? {
          r := CollapseAdds(r, WaitKey(groupId, node, oldUpdateId, AddMember), oldChangeSet.add.value.names);
        }
        if oldChangeSet.rm.Some? {
          r := CollapseRemoves(r, WaitKey(groupId, node, oldUpdateId, RemoveMember), oldChangeSet.rm.value.names);
        }
      }
    }

    method InsertWaitAck(key: WaitKey, now: int)
      modifies this`waits
      ensures waits == WaitInserted(old(waits), key, now)
    {
      if key !in waits {
        waits := waits[key := now];
      }
    }

    method RemoveWaitAckWithType(groupId: GroupId, node: NodeId, t: UpdateType)
      modifies this`waits
      ensures waits == map k | k in old(waits) && !(k.group == groupId && k.node == node && k.typ == t) :: old(waits)[k]
    {
      waits := map k | k in waits && !(k.group == groupId && k.node == node && k.typ == t) :: waits[k];
    }

    method RecordWaits(groupId: GroupId, node: NodeId, cs: ChangeSet, now: int)
      modifies this`waits
      ensures waits == WaitsRecorded(old(waits), groupId, node, updateIdGlobal, cs, now)
    {
      RecordMetaWaits(groupId, node, cs, now);
      if cs.burnMessage.Some? {
        InsertWaitAck(WaitKey(groupId, node, updateIdGlobal, BurnMessage), now);
      }
      if cs.add.Some? {
        InsertWaitAck(WaitKey(groupId, node, updateIdGlobal, AddMember), now);
      }
      if cs.rm.Some? {
        InsertWaitAck(WaitKey(groupId, node, updateIdGlobal, RemoveMember), now);
      }
    }

    method RecordMetaWaits(groupId: GroupId, node: NodeId, cs: ChangeSet, now: int)
      modifies this`waits
      ensures waits == MetaWaitsRecorded(old(waits), groupId, node, updateIdGlobal, cs, now)
    {
      if cs.name.Some? {
        RemoveWaitAckWithType(groupId, node, SetName);
        InsertWaitAck(WaitKey(groupId, node, updateIdGlobal, SetName), now);
      }
      if cs.avatar.Some? {
        RemoveWaitAckWithType(groupId, node, SetAvatar);
        InsertWaitAck(WaitKey(groupId, node, updateIdGlobal, SetAvatar), now);
      }
      if cs.burn.Some? {
        RemoveWaitAckWithType(groupId, node, SetBurn);
        InsertWaitAck(WaitKey(groupId, node, updateIdGlobal, SetBurn), now);
      }
    }

    method CreateChangeSetDevice(groupId: GroupId, deviceId: string, hasSet: bool, now: int)
      returns (code: Code, sent: Option<ChangeSet>)
      requires PendingUnique(State())
      modifies this
      ensures SendsTo(old(State()), groupId, deviceId, hasSet) ==>
                && code == Success && sent.Some?
                && (State(), sent.value) == SetForDevice(old(State()), groupId, deviceId, now)
      ensures !SendsTo(old(State()), groupId, deviceId, hasSet) ==>
                State() == old(State()) && (code, sent) == WithoutSend(State(), groupId, deviceId, hasSet)
    {
      if groupId == "" || deviceId == "" {
        return DataMissing, None;
      }
      if hasSet {
        return Success, None;
      }
      if !updateInProgress {
        var pendingSet := GetPendingGroupChangeSet(groupId);
        if pendingSet.None? {
          return Success, None;
        }
        return Success, if Waiting(waits, groupId, deviceId) then pendingSet else None;
      }
      if groupId !in currentChangeSets {
        return GroupUpdateInconsistent, None;
      }
      var cs := currentChangeSets[groupId];
      if !cs.HasUpdates() {
        return SelfDeadlock, None;
      }
      var node := NodeOf(deviceId);
      cs := CollapsePending(groupId, node, cs);
      if cs.add.Some? {
        cs := AddMissingMetaData(groupId, cs);
      }
      RecordWaits(groupId, node, cs, now);
      currentChangeSets := currentChangeSets[groupId := cs];
      code, sent := Success, Some(cs);
    }

    method GroupUpdateSendDone(groupId: GroupId)
      modifies this
      ensures State() == SendFinished(old(State()), groupId)
    {
      if !updateInProgress {
        return;
      }
      var currentKey := updateIdGlobal + groupId;
      updateIdGlobal := seq(UPDATE_ID_LENGTH, _ => '\0');
      // Remove old change sets of the group.
      var rest := pendingChangeSets.Keys;
      while rest != {}
        modifies this`pendingChangeSets
        invariant rest <= pendingChangeSets.Keys
        invariant pendingChangeSets.Keys <= old(pendingChangeSets).Keys
        invariant forall k <- pendingChangeSets :: pendingChangeSets[k] == old(pendingChangeSets)[k]
        invariant forall k <- old(pendingChangeSets) ::
                    k in rest || (k in pendingChangeSets <==> k == currentKey || !IsKeyOf(k, groupId))
      {
        var k :| k in rest;
        rest := rest - {k};
        if k != currentKey && IsKeyOf(k, groupId) {
          pendingChangeSets := pendingChangeSets - {k};
        }
      }
      assert pendingChangeSets == map k | k in old(pendingChangeSets) && (k == currentKey || !IsKeyOf(k, groupId)) ::
                                    old(pendingChangeSets)[k];
      if groupId !in currentChangeSets {
        return;
      }
      if currentKey !in pendingChangeSets {
        pendingChangeSets := pendingChangeSets[currentKey := currentChangeSets[groupId]];
      }
      currentChangeSets := currentChangeSets - {groupId};
      updateInProgress := false;
    }
  }
}
