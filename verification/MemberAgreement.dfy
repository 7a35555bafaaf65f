/** Sender and receiver of a member change end with the same members. */
module MemberAgreement {
  import opened Wrappers
  import opened VectorClocks
  import opened UpdateOrder
  import opened Registers
  import opened ChangeSets
  import opened GroupProtocol
  import opened GroupRuns

  lemma PreparedMembers(d: Device, g: GroupId, freshId: UpdateId, rows: seq<UserId>)
    requires StartsSend(d, g) && d.current[g].add.Some?
    requires Lists(rows, StartingMembers(d, g) + Elements(d.current[g].AddNames()))
    ensures var p := SendPrepared(d, g, freshId, rows);
            var all := StartingMembers(d, g) + Elements(d.current[g].AddNames());
            && g in p.groups && g in p.current && p.pending == d.pending
            && p.groups[g].members == all - (Elements(d.current[g].RmNames()) - {d.user})
            && Elements(p.current[g].AddNames()) == all
            && p.current[g].RmNames() == d.current[g].RmNames()
  {
    var d0, cs := SendBegun(d, g, freshId), d.current[g];
    StampedAllFrame(d0, g, cs);
    var (d1, cs1) := StampedAll(d0, g, cs);
    MemberListsPrepared(d1, g, BurnPrepared(d1, cs1), rows);
    MembersFrame(d1, g, BurnPrepared(d1, cs1), rows);
    PreparedFrame(d, g, freshId, rows);
  }

  lemma MemberListsPrepared(d: Device, g: GroupId, cs: ChangeSet, rows: seq<UserId>)
    requires g in d.groups && cs.add.Some?
    requires Lists(rows, d.groups[g].members + Elements(cs.AddNames()))
    ensures var (d1, cs1) := AddsPrepared(d, g, cs, rows);
            var (d2, cs2) := RemovesPrepared(d1, g, cs1);
            var all := d.groups[g].members + Elements(cs.AddNames());
            && g in d2.groups && d2.groups[g].members == all - (Elements(cs.RmNames()) - {d.user})
            && Elements(cs2.AddNames()) == all
            && cs2.RmNames() == cs.RmNames()
  {
    AppendedAllMeaning(cs.AddNames(), rows);
  }

  /** Without an older pending set the serialized lists are those of the current set. */
  lemma NothingToCarryOver(d: Device, g: GroupId, deviceId: string, now: int)
    requires g in d.current && PendingKey(d, g).None?
    ensures var (s, sent) := SetForDevice(d, g, deviceId, now);
            && sent.AddNames() == d.current[g].AddNames() && sent.RmNames() == d.current[g].RmNames()
            && s.groups == d.groups
  {
  }

  lemma ReceivedMembers(d: Device, g: GroupId, sender: UserId, deviceId: string, cs: ChangeSet, now: int)
    requires !IsSiblingLeave(d, g, sender, cs)
    requires cs.AddNames() != [] || g in d.groups
    ensures var r := MessageReceived(d, g, sender, deviceId, Some(cs), now).0;
            g in r.groups && r.groups[g].members == MembersAfter(StartingMembers(d, g), cs)
  {
    var d1 := if CreatesGroup(d, g, cs) then GroupInserted(d, g, cs) else d;
    UpdatedMembers(d1, g, NodeOf(deviceId), cs, now);
  }

  lemma UpdatedMembers(d: Device, g: GroupId, node: NodeId, cs: ChangeSet, now: int)
    requires g in d.groups
    ensures var r := GroupUpdated(d, g, node, cs, now);
            g in r.groups && r.groups[g].members == MembersAfter(d.groups[g].members, cs)
  {
    AcksKeepGroups(d, g, node, cs.acks, now);
    var d1 := if cs.acks != [] then ProcessedAcks(d, g, node, cs.acks, now) else d;
    MetadataMembers(d1, g, cs);
    assert !ChangesMembers(cs) ==> MembersAfter(d.groups[g].members, cs) == d.groups[g].members;
  }

  lemma MetadataMembers(d: Device, g: GroupId, cs: ChangeSet)
    requires g in d.groups
    ensures var r := MetadataReceived(d, g, cs); g in r.groups && r.groups[g].members == d.groups[g].members
  {
    MetaReceivedRegisters(d, g, SetName, cs.name, SetName);
    var d1 := MetaReceived(d, g, SetName, cs.name);
    MetaReceivedRegisters(d1, g, SetAvatar, cs.avatar, SetName);
    MetaReceivedRegisters(MetaReceived(d1, g, SetAvatar, cs.avatar), g, SetBurn, cs.burn, SetName);
  }

  lemma SerializedMembers(d: Device, g: GroupId, freshId: UpdateId, rows: seq<UserId>, deviceId: string, now: int)
    requires StartsSend(d, g) && d.current[g].add.Some? && PendingKey(d, g).None?
    requires Lists(rows, StartingMembers(d, g) + Elements(d.current[g].AddNames()))
    ensures var (s, sent) := SetForDevice(SendPrepared(d, g, freshId, rows), g, deviceId, now);
            var all := StartingMembers(d, g) + Elements(d.current[g].AddNames());
            && g in s.groups && s.groups[g].members == all - (Elements(d.current[g].RmNames()) - {d.user})
            && Elements(sent.AddNames()) == all
            && sent.RmNames() == d.current[g].RmNames()
  {
    PreparedMembers(d, g, freshId, rows);
    var p := SendPrepared(d, g, freshId, rows);
    assert PendingKey(p, g).None? by {
      assert forall k <- p.pending :: k in d.pending;
    }
    NothingToCarryOver(p, g, deviceId, now);
  }

  /**
   * Member agreement. A sender with members M sends a set that adds A and removes R, with no older pending set. The
   * sender ends with (M + A) - R, itself excepted from R. A receiver, also one that only just created the group, ends
   * with the same members exactly when the sender does not remove itself and every member it starts from is in
   * M + A or removed.
   */
  lemma MembersAgreeExactlyWhen(s: Device, g: GroupId, freshId: UpdateId, rows: seq<UserId>, deviceId: string, now: int,
                                r: Device, senderId: string, later: int)
    requires StartsSend(s, g) && s.current[g].add.Some? && PendingKey(s, g).None?
    requires Lists(rows, StartingMembers(s, g) + Elements(s.current[g].AddNames()))
    requires g in r.groups || StartingMembers(s, g) + Elements(s.current[g].AddNames()) != {}
    ensures var (s1, sent) := SetForDevice(SendPrepared(s, g, freshId, rows), g, deviceId, now);
            var r1 := MessageReceived(r, g, s.user, senderId, Some(sent), later).0;
            var all := StartingMembers(s, g) + Elements(s.current[g].AddNames());
            var gone := Elements(s.current[g].RmNames());
            var leave := s.user == r.user && g in r.groups && s.current[g].RmNames() == [s.user];
            && g in s1.groups && s1.groups[g].members == all - (gone - {s.user})
            && ((g in r1.groups && r1.groups[g].members == s1.groups[g].members) <==>
                !leave && s.user !in all * gone && StartingMembers(r, g) - gone <= all)
  {
    SerializedMembers(s, g, freshId, rows, deviceId, now);
    var (s1, sent) := SetForDevice(SendPrepared(s, g, freshId, rows), g, deviceId, now);
    ReceiverAgrees(s.user, Elements(sent.AddNames()), sent, r, g, senderId, later);
  }

  lemma ReceiverAgrees(sender: UserId, all: set<UserId>, sent: ChangeSet, r: Device, g: GroupId, senderId: string,
                       now: int)
    requires Elements(sent.AddNames()) == all && (g in r.groups || all != {})
    ensures var r1 := MessageReceived(r, g, sender, senderId, Some(sent), now).0;
            var gone := Elements(sent.RmNames());
            (g in r1.groups && r1.groups[g].members == all - (gone - {sender})) <==>
            !IsSiblingLeave(r, g, sender, sent) && sender !in all * gone && StartingMembers(r, g) - gone <= all
  {
    if IsSiblingLeave(r, g, sender, sent) {
      assert MessageReceived(r, g, sender, senderId, Some(sent), now).0 == LeftGroup(r, g);
    } else {
      assert sent.AddNames() == [] ==> all == {};
      ReceivedMembers(r, g, sender, senderId, sent, now);
      SetsAgree(StartingMembers(r, g), all, Elements(sent.RmNames()), sender);
    }
  }

  lemma SetsAgree(before: set<UserId>, all: set<UserId>, gone: set<UserId>, own: UserId)
    ensures (before + all) - gone == all - (gone - {own}) <==> own !in all * gone && before - gone <= all
  {
    assert own in all * gone ==> own in all - (gone - {own}) && own !in (before + all) - gone;
    if (before + all) - gone == all - (gone - {own}) {
      forall x | x in before - gone
        ensures x in all
      {
        assert x in (before + all) - gone;
      }
    }
  }

  // ---------- Sets without an add list ----------

  lemma PreparedRemovals(d: Device, g: GroupId, freshId: UpdateId, rows: seq<UserId>)
    requires StartsSend(d, g) && d.current[g].add.None?
    ensures var p := SendPrepared(d, g, freshId, rows);
            && g in p.groups && g in p.current && p.pending == d.pending
            && p.groups[g].members == StartingMembers(d, g) - (Elements(d.current[g].RmNames()) - {d.user})
            && p.current[g].add.None? && p.current[g].RmNames() == d.current[g].RmNames()
  {
    var d0, cs := SendBegun(d, g, freshId), d.current[g];
    StampedAllFrame(d0, g, cs);
    var (d1, cs1) := StampedAll(d0, g, cs);
    RemovalsPrepared(d1, g, BurnPrepared(d1, cs1), rows);
    PreparedFrame(d, g, freshId, rows);
  }

  lemma RemovalsPrepared(d: Device, g: GroupId, cs: ChangeSet, rows: seq<UserId>)
    requires g in d.groups && cs.add.None?
    ensures var (d1, cs1) := AddsPrepared(d, g, cs, rows);
            var (d2, cs2) := RemovesPrepared(d1, g, cs1);
            && g in d2.groups && d2.groups[g].members == d.groups[g].members - (Elements(cs.RmNames()) - {d.user})
            && cs2.add.None? && cs2.RmNames() == cs.RmNames()
  {
    assert d.groups[g].members - ({} - {d.user}) == d.groups[g].members;
  }

  lemma SerializedRemovals(d: Device, g: GroupId, freshId: UpdateId, rows: seq<UserId>, deviceId: string, now: int)
    requires StartsSend(d, g) && d.current[g].add.None? && PendingKey(d, g).None?
    ensures var (s, sent) := SetForDevice(SendPrepared(d, g, freshId, rows), g, deviceId, now);
            && g in s.groups
            && s.groups[g].members == StartingMembers(d, g) - (Elements(d.current[g].RmNames()) - {d.user})
            && sent.AddNames() == [] && sent.RmNames() == d.current[g].RmNames()
  {
    PreparedRemovals(d, g, freshId, rows);
    var p := SendPrepared(d, g, freshId, rows);
    assert PendingKey(p, g).None? by {
      assert forall k <- p.pending :: k in d.pending;
    }
    NothingToCarryOver(p, g, deviceId, now);
  }

  /**
   * The same for a set without an add list. A sender with members M ends with M - R, itself excepted from R. A receiver
   * agrees exactly when it has the group and stays in it, the sender does not remove itself, and the two had the same
   * members but for removed ones.
   */
  lemma RemovalsAgreeExactlyWhen(s: Device, g: GroupId, freshId: UpdateId, rows: seq<UserId>, deviceId: string,
                                 now: int, r: Device, senderId: string, later: int)
    requires StartsSend(s, g) && s.current[g].add.None? && PendingKey(s, g).None?
    ensures var (s1, sent) := SetForDevice(SendPrepared(s, g, freshId, rows), g, deviceId, now);
            var r1 := MessageReceived(r, g, s.user, senderId, Some(sent), later).0;
            var members, gone := StartingMembers(s, g), Elements(s.current[g].RmNames());
            var leave := s.user == r.user && g in r.groups && s.current[g].RmNames() == [s.user];
            && g in s1.groups && s1.groups[g].members == members - (gone - {s.user})
            && ((g in r1.groups && r1.groups[g].members == s1.groups[g].members) <==>
                && g in r.groups && !leave && s.user !in members * gone
                && r.groups[g].members - gone == members - gone)
  {
    SerializedRemovals(s, g, freshId, rows, deviceId, now);
    var sent := SetForDevice(SendPrepared(s, g, freshId, rows), g, deviceId, now).1;
    ReceiverAgreesOnRemovals(s.user, StartingMembers(s, g), sent, r, g, senderId, later);
  }

  lemma ReceiverAgreesOnRemovals(sender: UserId, members: set<UserId>, sent: ChangeSet, r: Device, g: GroupId,
                                 senderId: string, now: int)
    requires sent.AddNames() == []
    ensures var r1 := MessageReceived(r, g, sender, senderId, Some(sent), now).0;
            var gone := Elements(sent.RmNames());
            (g in r1.groups && r1.groups[g].members == members - (gone - {sender})) <==>
            && g in r.groups && !IsSiblingLeave(r, g, sender, sent) && sender !in members * gone
            && r.groups[g].members - gone == members - gone
  {
    if IsSiblingLeave(r, g, sender, sent) {
      assert MessageReceived(r, g, sender, senderId, Some(sent), now).0 == LeftGroup(r, g);
    } else if g in r.groups {
      ReceivedMembers(r, g, sender, senderId, sent, now);
      RemovedSetsAgree(r.groups[g].members, members, Elements(sent.RmNames()), sender);
    }
  }

  lemma RemovedSetsAgree(before: set<UserId>, members: set<UserId>, gone: set<UserId>, own: UserId)
    ensures (before + {}) - gone == members - (gone - {own}) <==>
            own !in members * gone && before - gone == members - gone
  {
    assert own in members * gone ==> own in members - (gone - {own}) && own !in (before + {}) - gone;
    assert before + {} == before;
    assert own !in members * gone ==> members - (gone - {own}) == members - gone;
  }

  // ---------- Requests to be removed ----------

  /**
   * A device that gets a message for a group it neither has nor is added to answers with a request that the sender
   * obeys: the user is a member there no longer, and all else about the group stays. A device of the same user leaves.
   */
  lemma RequestedRemovalIsObeyed(a: Device, aId: string, b: Device, bId: string, g: GroupId, cs: Option<ChangeSet>,
                                 now: int, later: int)
    requires g in a.groups && g !in b.groups && (cs.Some? ==> cs.value.AddNames() == [])
    requires MessageReceived(b, g, a.user, aId, cs, now).1.Some?
    ensures var reply := MessageReceived(b, g, a.user, aId, cs, now).1;
            var a1 := MessageReceived(a, g, b.user, bId, reply, later).0;
            if a.user == b.user then g !in a1.groups
            else && g in a1.groups && a1.groups[g].members == a.groups[g].members - {b.user}
                 && a1 == a.(groups := a.groups[g := a.groups[g].(members := a1.groups[g].members)])
  {
    assert MessageReceived(b, g, a.user, aId, cs, now).1 == Some(RemoveRequest(b.user));
    var request := RemoveRequest(b.user);
    assert request.AddNames() == [] && request.RmNames() == [b.user] && request.acks == [];
    if a.user != b.user {
      RequestReceived(a, g, b.user, bId, later);
    }
  }

  lemma RequestReceived(a: Device, g: GroupId, user: UserId, deviceId: string, now: int)
    requires g in a.groups && a.user != user
    ensures var a1 := MessageReceived(a, g, user, deviceId, Some(RemoveRequest(user)), now).0;
            a1 == a.(groups := a.groups[g := a.groups[g].(members := a.groups[g].members - {user})])
  {
    var request := RemoveRequest(user);
    assert MetadataReceived(a, g, request) == a;
    assert MembersAfter(a.groups[g].members, request) == a.groups[g].members - {user};
  }
}
