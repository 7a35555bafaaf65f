/** Automatic replies between two devices: ACKs, and requests to be removed from a group the receiver does not have. */
module ReplyChains {
  import opened Wrappers
  import opened ChangeSets
  import opened GroupProtocol
  import opened GroupRuns

  /**
   * The number of automatic replies that follow one message from a to b, at most rounds of them, when the two devices
   * exchange nothing else. Each device answers the other; now gives the time of each delivery.
   */
  ghost function Replies(a: Device, aId: string, b: Device, bId: string, g: GroupId, cs: Option<ChangeSet>,
                         now: nat -> int, rounds: nat): nat
    decreases rounds
  {
    if rounds == 0 then 0
    else
      var (b1, reply) := MessageReceived(b, g, a.user, aId, cs, now(rounds));
      if reply.None? then 0 else 1 + Replies(b1, bId, a, aId, g, reply, now, rounds - 1)
  }

  /** A reply is either a set of ACKs or a request to remove the replying user. */
  lemma ReplyKinds(d: Device, g: GroupId, sender: UserId, deviceId: string, cs: Option<ChangeSet>, now: int)
    ensures var reply := MessageReceived(d, g, sender, deviceId, cs, now).1;
            reply.Some? ==> reply.value.IsAckOnly() || reply.value == RemoveRequest(d.user)
  {
  }

  /** ACKs are never answered. */
  lemma AcksAreNotAnswered(a: Device, aId: string, b: Device, bId: string, g: GroupId, cs: ChangeSet,
                           now: nat -> int, rounds: nat)
    requires cs.IsAckOnly()
    ensures Replies(a, aId, b, bId, g, Some(cs), now, rounds) == 0
  {
  }

  /** A remove request is answered by ACKs, or ignored, or answered by a remove request that is remembered. */
  lemma RemoveRequestAnswer(d: Device, g: GroupId, sender: UserId, deviceId: string, now: int)
    ensures var (d1, reply) := MessageReceived(d, g, sender, deviceId, Some(RemoveRequest(sender)), now);
            || reply.None?
            || reply.value.IsAckOnly()
            || (&& reply.value == RemoveRequest(d.user) && d1.user == d.user
                && g !in d1.groups && g + deviceId in d1.sentRemoveTo)
  {
    var key, keys := g + deviceId, Remembered(d.sentRemoveTo, g + deviceId);
    assert keys[|keys| - 1] == key;
  }

  lemma RememberedSenderIsIgnored(a: Device, aId: string, b: Device, bId: string, g: GroupId,
                                  now: nat -> int, rounds: nat)
    requires g !in b.groups && g + aId in b.sentRemoveTo
    ensures Replies(a, aId, b, bId, g, Some(RemoveRequest(a.user)), now, rounds) == 0
  {
  }

  /** The answer to a remove request from a device that remembers the other one is the last. */
  lemma AtMostOneReplyToRememberer(a: Device, aId: string, b: Device, bId: string, g: GroupId,
                                   now: nat -> int, rounds: nat)
    requires g !in a.groups && g + bId in a.sentRemoveTo
    ensures Replies(a, aId, b, bId, g, Some(RemoveRequest(a.user)), now, rounds) <= 1
  {
    if rounds > 0 {
      RemoveRequestAnswer(b, g, a.user, aId, now(rounds));
      var (b1, reply) := MessageReceived(b, g, a.user, aId, Some(RemoveRequest(a.user)), now(rounds));
      if reply.Some? {
        if reply.value.IsAckOnly() {
          AcksAreNotAnswered(b1, bId, a, aId, g, reply.value, now, rounds - 1);
        } else {
          RememberedSenderIsIgnored(b1, bId, a, aId, g, now, rounds - 1);
        }
      }
    }
  }

  lemma AtMostTwoRepliesToRemoveRequest(a: Device, aId: string, b: Device, bId: string, g: GroupId,
                                        now: nat -> int, rounds: nat)
    ensures Replies(a, aId, b, bId, g, Some(RemoveRequest(a.user)), now, rounds) <= 2
  {
    if rounds > 0 {
      RemoveRequestAnswer(b, g, a.user, aId, now(rounds));
      var (b1, reply) := MessageReceived(b, g, a.user, aId, Some(RemoveRequest(a.user)), now(rounds));
      if reply.Some? {
        if reply.value.IsAckOnly() {
          AcksAreNotAnswered(b1, bId, a, aId, g, reply.value, now, rounds - 1);
        } else {
          AtMostOneReplyToRememberer(b1, bId, a, aId, g, now, rounds - 1);
        }
      }
    }
  }

  /**
   * Reply chains end. Whatever the two devices store, and whatever the message carries, it causes at most three
   * automatic replies.
   */
  lemma AtMostThreeReplies(a: Device, aId: string, b: Device, bId: string, g: GroupId, cs: Option<ChangeSet>,
                           now: nat -> int, rounds: nat)
    ensures Replies(a, aId, b, bId, g, cs, now, rounds) <= 3
  {
    if rounds > 0 {
      ReplyKinds(b, g, a.user, aId, cs, now(rounds));
      var (b1, reply) := MessageReceived(b, g, a.user, aId, cs, now(rounds));
      ReceiverKeepsItsUser(b, g, a.user, aId, cs, now(rounds));
      if reply.Some? {
        if reply.value.IsAckOnly() {
          AcksAreNotAnswered(b1, bId, a, aId, g, reply.value, now, rounds - 1);
        } else {
          AtMostTwoRepliesToRemoveRequest(b1, bId, a, aId, g, now, rounds - 1);
        }
      }
    }
  }

  lemma ReceiverKeepsItsUser(d: Device, g: GroupId, sender: UserId, deviceId: string, cs: Option<ChangeSet>, now: int)
    ensures MessageReceived(d, g, sender, deviceId, cs, now).0.user == d.user
  {
    ReceivedFrame(d, g, sender, deviceId, cs, now);
  }

  /** Three is reached: a plain message between devices that both lack the group, neither of which has asked before. */
  lemma ThreeRepliesHappen(a: Device, aId: string, b: Device, bId: string, g: GroupId, now: nat -> int, rounds: nat)
    requires rounds >= 3 && a.user != b.user && g !in a.groups && g !in b.groups
    requires g + bId !in a.sentRemoveTo && g + aId !in b.sentRemoveTo
    ensures Replies(a, aId, b, bId, g, None, now, rounds) == 3
  {
    var a1 := a.(sentRemoveTo := Remembered(a.sentRemoveTo, g + bId));
    var b1 := b.(sentRemoveTo := Remembered(b.sentRemoveTo, g + aId));
    assert MessageReceived(b, g, a.user, aId, None, now(rounds)) == (b, Some(RemoveRequest(b.user)));
    assert MessageReceived(a, g, b.user, bId, Some(RemoveRequest(b.user)), now(rounds - 1)) ==
           (a1, Some(RemoveRequest(a.user)));
    assert MessageReceived(b, g, a1.user, aId, Some(RemoveRequest(a.user)), now(rounds - 2)) ==
           (b1, Some(RemoveRequest(b.user)));
    assert a1.sentRemoveTo[|a1.sentRemoveTo| - 1] == g + bId;
    RememberedSenderIsIgnored(b1, bId, a1, aId, g, now, rounds - 3);
    assert Replies(a1, aId, b, bId, g, Some(RemoveRequest(a.user)), now, rounds - 2) == 1;
    assert Replies(b, bId, a, aId, g, Some(RemoveRequest(b.user)), now, rounds - 1) == 2;
  }

  /** Over every run the memory of remove requests stays free of repeats and within 31 keys. */
  lemma {:induction false} RemoveMemoryIsBounded(d: Device, es: seq<Event>)
    requires Distinct(d.sentRemoveTo) && |d.sentRemoveTo| <= 31
    ensures Distinct(Run(d, es).sentRemoveTo) && |Run(d, es).sentRemoveTo| <= 31
  {
    if es != [] {
      RemoveMemoryIsBounded(d, es[..|es| - 1]);
      StepBoundsRemoveMemory(Run(d, es[..|es| - 1]), es[|es| - 1]);
    }
  }

  lemma StepBoundsRemoveMemory(d: Device, e: Event)
    requires Distinct(d.sentRemoveTo) && |d.sentRemoveTo| <= 31
    ensures Distinct(Step(d, e).sentRemoveTo) && |Step(d, e).sentRemoveTo| <= 31
  {
    match e {
      case Preparing(g, freshId, rows) =>
        PreparedFrame(d, g, freshId, rows);
      case Serializing(g, deviceId, hasSet, now) =>
        if SendsTo(d, g, deviceId, hasSet) {
          SerializedFrame(d, g, deviceId, now);
        }
      case Receiving(g, sender, deviceId, cs, now) =>
        ReceivedMemory(d, g, sender, deviceId, cs, now);
      case Finishing(g) =>
      case Leaving(g) =>
      case _ =>
        EditFrame(d, e);
    }
  }

  lemma ReceivedMemory(d: Device, g: GroupId, sender: UserId, deviceId: string, cs: Option<ChangeSet>, now: int)
    ensures var keys := MessageReceived(d, g, sender, deviceId, cs, now).0.sentRemoveTo;
            || keys == d.sentRemoveTo
            || (g + deviceId !in d.sentRemoveTo && keys == Remembered(d.sentRemoveTo, g + deviceId))
  {
    if cs.Some? && !IsSiblingLeave(d, g, sender, cs.value) {
      var d1 := if CreatesGroup(d, g, cs.value) then GroupInserted(d, g, cs.value) else d;
      if g in d1.groups {
        GroupUpdatedFrame(d1, g, NodeOf(deviceId), cs.value, now);
      }
    }
  }

  // ---------- A group the device does not have ----------

  /**
   * The message makes the device ask to be removed: it comes for a group that the device neither has nor is added to,
   * with an update other than member additions and message burns that is not itself such a request for this user, and
   * the device has not asked the sender's device before.
   */
  predicate Asks(d: Device, e: Event) {
    && e.Receiving? && e.g !in d.groups && e.cs.Some?
    && var cs := e.cs.value;
       && cs.AddNames() == [] && (cs.name.Some? || cs.avatar.Some? || cs.burn.Some? || cs.rm.Some?)
       && cs.RmNames() != [d.user] && e.g + e.deviceId !in d.sentRemoveTo
  }

  /**
   * A message for a group that the device neither has nor is added to is answered exactly when it has no change set at
   * all, or asks: with a set that removes this user and carries nothing else. Only asking is remembered, and nothing
   * else changes.
   */
  lemma UnknownGroupAnswer(d: Device, e: Event)
    requires e.Receiving? && e.g !in d.groups && (e.cs.Some? ==> e.cs.value.AddNames() == [])
    ensures var (d1, reply) := MessageReceived(d, e.g, e.sender, e.deviceId, e.cs, e.now);
            && reply == (if e.cs.None? || Asks(d, e)
                         then Some(ChangeSet(None, None, None, None, Some(NameList("", [d.user])), None, [])) else None)
            && d1 == d.(sentRemoveTo := d1.sentRemoveTo)
            && (!Asks(d, e) ==> d1 == d)
  {
  }

  /** The keys a run asks about, in order. */
  ghost function KeysAsked(d: Device, es: seq<Event>): seq<string> {
    if es == [] then []
    else
      var before, e := Run(d, es[..|es| - 1]), es[|es| - 1];
      KeysAsked(d, es[..|es| - 1]) + (if Asks(before, e) then [e.g + e.deviceId] else [])
  }

  /** The last 31, or all if there are fewer. */
  function Latest(keys: seq<string>): seq<string> {
    if |keys| <= 31 then keys else keys[|keys| - 31..]
  }

  /** Over every run the device remembers exactly the last 31 devices and groups it asked about. */
  lemma {:induction false} RemoveMemoryIsLatest(d: Device, es: seq<Event>)
    requires |d.sentRemoveTo| <= 31
    ensures Run(d, es).sentRemoveTo == Latest(d.sentRemoveTo + KeysAsked(d, es))
  {
    if es == [] {
      assert d.sentRemoveTo + [] == d.sentRemoveTo;
    } else {
      var before, e := Run(d, es[..|es| - 1]), es[|es| - 1];
      var keys := d.sentRemoveTo + KeysAsked(d, es[..|es| - 1]);
      RemoveMemoryIsLatest(d, es[..|es| - 1]);
      StepRemembers(before, e);
      LatestOneMore(keys, e.g + (if e.Receiving? then e.deviceId else ""));
      assert keys + [] == keys;
      assert d.sentRemoveTo + KeysAsked(d, es) == keys + (if Asks(before, e) then [e.g + e.deviceId] else []);
    }
  }

  lemma LatestOneMore(keys: seq<string>, key: string)
    ensures Latest(keys + [key]) == Latest(Latest(keys) + [key])
  {
  }

  lemma StepRemembers(d: Device, e: Event)
    requires |d.sentRemoveTo| <= 31
    ensures Step(d, e).sentRemoveTo ==
            if Asks(d, e) then Latest(d.sentRemoveTo + [e.g + e.deviceId]) else d.sentRemoveTo
  {
    match e {
      case Preparing(g, freshId, rows) =>
        PreparedFrame(d, g, freshId, rows);
      case Serializing(g, deviceId, hasSet, now) =>
        if SendsTo(d, g, deviceId, hasSet) {
          SerializedFrame(d, g, deviceId, now);
        }
      case Receiving(g, sender, deviceId, cs, now) =>
        ReceivingRemembers(d, e);
      case Finishing(_) =>
      case Leaving(_) =>
      case _ =>
        EditFrame(d, e);
    }
  }

  lemma ReceivingRemembers(d: Device, e: Event)
    requires |d.sentRemoveTo| <= 31 && e.Receiving?
    ensures Step(d, e).sentRemoveTo ==
            if Asks(d, e) then Latest(d.sentRemoveTo + [e.g + e.deviceId]) else d.sentRemoveTo
  {
    if e.g !in d.groups && (e.cs.Some? ==> e.cs.value.AddNames() == []) {
      UnknownGroupRemembers(d, e);
    } else if e.cs.Some? {
      KnownGroupKeepsMemory(d, e);
    }
  }

  lemma UnknownGroupRemembers(d: Device, e: Event)
    requires |d.sentRemoveTo| <= 31 && e.Receiving? && e.g !in d.groups && (e.cs.Some? ==> e.cs.value.AddNames() == [])
    ensures Step(d, e).sentRemoveTo ==
            if Asks(d, e) then Latest(d.sentRemoveTo + [e.g + e.deviceId]) else d.sentRemoveTo
  {
  }

  lemma KnownGroupKeepsMemory(d: Device, e: Event)
    requires e.Receiving? && e.cs.Some? && (e.g in d.groups || e.cs.value.AddNames() != [])
    ensures Step(d, e).sentRemoveTo == d.sentRemoveTo
  {
    if !IsSiblingLeave(d, e.g, e.sender, e.cs.value) {
      var d1 := if CreatesGroup(d, e.g, e.cs.value) then GroupInserted(d, e.g, e.cs.value) else d;
      GroupUpdatedFrame(d1, e.g, NodeOf(e.deviceId), e.cs.value, e.now);
    }
  }
}
