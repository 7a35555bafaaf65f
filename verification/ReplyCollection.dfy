/** A send seen to its end: serialized for each device, answered by each, and collected. */
module ReplyCollection {
  import opened Wrappers
  import opened VectorClocks
  import opened UpdateOrder
  import opened ChangeSets
  import opened GroupProtocol
  import opened GroupRuns
  import opened RegisterRuns
  import opened WaitRecords
  import ClockClash

  // ---------- One reply ----------

  /** The id under which a set carries an update of the type. */
  function IdOf(cs: ChangeSet, t: UpdateType): Option<UpdateId> {
    match t
    case SetName => if cs.name.Some? then Some(cs.name.value.id) else None
    case SetAvatar => if cs.avatar.Some? then Some(cs.avatar.value.id) else None
    case SetBurn => if cs.burn.Some? then Some(cs.burn.value.id) else None
    case AddMember => if cs.add.Some? then Some(cs.add.value.id) else None
    case RemoveMember => if cs.rm.Some? then Some(cs.rm.value.id) else None
    case BurnMessage => if cs.burnMessage.Some? then Some(cs.burnMessage.value.id) else None
  }

  predicate IsList(t: UpdateType) {
    t == AddMember || t == RemoveMember
  }

  predicate Names(reply: Option<ChangeSet>, t: UpdateType, id: UpdateId) {
    reply.Some? && exists a <- reply.value.acks :: a.typ == t && a.id == id
  }

  /** The receiver has the group or is added to it, and the set does not make it leave. */
  predicate KeepsGroup(r: Device, g: GroupId, sender: UserId, cs: ChangeSet) {
    !IsSiblingLeave(r, g, sender, cs) && (g in r.groups || cs.AddNames() != [])
  }

  /** A receiver that keeps the group names each update in its reply, member lists only if one of them names someone. */
  lemma ReplyNamesExactly(r: Device, g: GroupId, sender: UserId, senderId: string, cs: ChangeSet, now: int,
                          t: UpdateType, id: UpdateId)
    requires KeepsGroup(r, g, sender, cs)
    ensures Names(MessageReceived(r, g, sender, senderId, Some(cs), now).1, t, id) <==>
            IdOf(cs, t) == Some(id) && (IsList(t) ==> ChangesMembers(cs))
  {
    var r1 := if CreatesGroup(r, g, cs) then GroupInserted(r, g, cs) else r;
    AcksNameExactly(r1, g, cs, t, id);
    ReplyIs(r, g, sender, senderId, cs, now);
    NamesInReply(AcksFor(r1, g, cs), t, id);
  }

  function ReplyOf(acks: seq<Ack>): Option<ChangeSet> {
    if acks != [] then Some(EMPTY_SET.(acks := acks)) else None
  }

  lemma ReplyIs(r: Device, g: GroupId, sender: UserId, senderId: string, cs: ChangeSet, now: int)
    requires KeepsGroup(r, g, sender, cs)
    ensures var r1 := if CreatesGroup(r, g, cs) then GroupInserted(r, g, cs) else r;
            MessageReceived(r, g, sender, senderId, Some(cs), now).1 == ReplyOf(AcksFor(r1, g, cs))
  {
  }

  lemma NamesInReply(acks: seq<Ack>, t: UpdateType, id: UpdateId)
    ensures Names(ReplyOf(acks), t, id) <==> exists a <- acks :: a.typ == t && a.id == id
  {
  }

  lemma AcksNameExactly(r: Device, g: GroupId, cs: ChangeSet, t: UpdateType, id: UpdateId)
    requires g in r.groups
    ensures (exists a <- AcksFor(r, g, cs) :: a.typ == t && a.id == id) <==>
            IdOf(cs, t) == Some(id) && (IsList(t) ==> ChangesMembers(cs))
  {
    AcksForMatchesExpected(r, g, cs, t);
    AcksOfMembers(AcksFor(r, g, cs), t, id);
    ExpectedNames(r, g, cs, t, id);
  }

  lemma ExpectedNames(r: Device, g: GroupId, cs: ChangeSet, t: UpdateType, id: UpdateId)
    requires g in r.groups
    ensures (exists a <- ExpectedAcks(r, g, cs, t) :: a.id == id) <==>
            IdOf(cs, t) == Some(id) && (IsList(t) ==> ChangesMembers(cs))
  {
    var acks := ExpectedAcks(r, g, cs, t);
    assert acks != [] ==> acks[0] in acks;
  }

  lemma {:induction false} AcksOfMembers(acks: seq<Ack>, t: UpdateType, id: UpdateId)
    ensures (exists a <- AcksOf(acks, t) :: a.id == id) <==> exists a <- acks :: a.typ == t && a.id == id
  {
    if acks != [] {
      var head := if acks[0].typ == t then [acks[0]] else [];
      AcksOfMembers(acks[1..], t, id);
      assert forall a :: a in AcksOf(acks, t) <==> a in head || a in AcksOf(acks[1..], t);
      assert forall a :: a in acks <==> a == acks[0] || a in acks[1..];
    }
  }

  /**
   * What a send of id serializes for a device, the device's reply acknowledges under that id, a member list exactly
   * when the set had it when the send began and one of the two lists names someone.
   */
  lemma ReplyAcknowledgesExactlyWhen(d: Device, g: GroupId, id: UpdateId, begun: ChangeSet, deviceId: string, now: int,
                                     r: Device, senderId: string, later: int, t: UpdateType)
    requires Sending(d, g, id, begun) && id != ""
    requires var sent := SetForDevice(d, g, deviceId, now).1; Carries(sent, t) && KeepsGroup(r, g, d.user, sent)
    ensures var sent := SetForDevice(d, g, deviceId, now).1;
            Names(MessageReceived(r, g, d.user, senderId, Some(sent), later).1, t, id) <==>
            (IsList(t) ==> begun.List(t).Some? && ChangesMembers(sent))
  {
    SerializingKeepsSending(d, g, deviceId, now, begun);
    ReplyNamesSent(r, g, d.user, senderId, SetForDevice(d, g, deviceId, now).1, later, begun, id, t);
  }

  lemma ReplyNamesSent(r: Device, g: GroupId, sender: UserId, senderId: string, sent: ChangeSet, now: int,
                       begun: ChangeSet, id: UpdateId, t: UpdateType)
    requires CarriesId(sent, id) && ListsTravel(sent, begun, id) && Carries(sent, t) && id != ""
    requires KeepsGroup(r, g, sender, sent)
    ensures Names(MessageReceived(r, g, sender, senderId, Some(sent), now).1, t, id) <==>
            (IsList(t) ==> begun.List(t).Some? && ChangesMembers(sent))
  {
    ReplyNamesExactly(r, g, sender, senderId, sent, now, t, id);
    IdsOfSent(sent, begun, id, t);
  }

  lemma IdsOfSent(sent: ChangeSet, begun: ChangeSet, id: UpdateId, t: UpdateType)
    requires CarriesId(sent, id) && ListsTravel(sent, begun, id) && Carries(sent, t) && id != ""
    ensures IdOf(sent, t) == Some(id) <==> (IsList(t) ==> begun.List(t).Some?)
  {
  }

  /** No list that only joined on the way, and no pair of empty lists. */
  predicate ListsAreAcknowledged(sent: ChangeSet, begun: ChangeSet) {
    && (sent.add.Some? ==> begun.add.Some? && ChangesMembers(sent))
    && (sent.rm.Some? ==> begun.rm.Some? && ChangesMembers(sent))
  }

  /** A reply acknowledges everything the device was sent exactly when neither of the two odd cases occurs. */
  lemma ReplyAcknowledgesAllExactlyWhen(d: Device, g: GroupId, id: UpdateId, begun: ChangeSet, deviceId: string,
                                        now: int, r: Device, senderId: string, later: int)
    requires Sending(d, g, id, begun) && id != ""
    requires KeepsGroup(r, g, d.user, SetForDevice(d, g, deviceId, now).1)
    ensures var sent := SetForDevice(d, g, deviceId, now).1;
            var reply := MessageReceived(r, g, d.user, senderId, Some(sent), later).1;
            (forall t | Carries(sent, t) :: Names(reply, t, id)) <==> ListsAreAcknowledged(sent, begun)
  {
    var sent := SetForDevice(d, g, deviceId, now).1;
    forall t | Carries(sent, t)
      ensures Names(MessageReceived(r, g, d.user, senderId, Some(sent), later).1, t, id) <==>
              (IsList(t) ==> begun.List(t).Some? && ChangesMembers(sent))
    {
      ReplyAcknowledgesExactlyWhen(d, g, id, begun, deviceId, now, r, senderId, later, t);
    }
    ListsOfSent(sent, begun);
  }

  lemma ListsOfSent(sent: ChangeSet, begun: ChangeSet)
    ensures (forall t | Carries(sent, t) :: IsList(t) ==> begun.List(t).Some? && ChangesMembers(sent)) <==>
            ListsAreAcknowledged(sent, begun)
  {
    assert Carries(sent, AddMember) <==> sent.add.Some?;
    assert Carries(sent, RemoveMember) <==> sent.rm.Some?;
  }

  // ---------- All replies ----------

  /** The event serializes the group's set for a device. */
  predicate Serves(d: Device, e: Event, g: GroupId) {
    e.Serializing? && e.g == g && SendsTo(d, g, e.deviceId, e.hasSet)
  }

  /** The event delivers what some receiver, one that keeps the group, replied to the set. */
  ghost predicate IsReplyTo(e: Event, g: GroupId, user: UserId, deviceId: string, sent: ChangeSet) {
    && e.Receiving? && e.g == g && NodeOf(e.deviceId) == NodeOf(deviceId) && e.cs.Some?
    && exists r: Device, senderId: string, later: int ::
         KeepsGroup(r, g, user, sent) && e.cs == MessageReceived(r, g, user, senderId, Some(sent), later).1
  }

  /**
   * The set served by event i of a send comes with lists that are acknowledged, and its reply is back: after the send
   * was finished, or earlier, while the device had the group.
   */
  ghost predicate IsAnswered(p: Device, es: seq<Event>, i: nat, g: GroupId, begun: ChangeSet, fs: seq<Event>)
    requires i < |es|
  {
    var d := Run(p, es[..i]);
    Serves(d, es[i], g) ==>
      var sent := SetForDevice(d, g, es[i].deviceId, es[i].now).1;
      && ListsAreAcknowledged(sent, begun)
      && (|| (exists f <- fs :: IsReplyTo(f, g, p.user, es[i].deviceId, sent))
          || (exists j: nat :: i < j < |es| && IsEarlyReply(p, es, j, g, es[i].deviceId, sent)))
  }

  ghost predicate AllAnswered(p: Device, es: seq<Event>, g: GroupId, begun: ChangeSet, fs: seq<Event>) {
    forall i: nat | i < |es| :: IsAnswered(p, es, i, g, begun, fs)
  }

  ghost predicate IsEarlyReply(p: Device, es: seq<Event>, j: nat, g: GroupId, deviceId: string, sent: ChangeSet)
    requires j < |es|
  {
    g in Run(p, es[..j]).groups && IsReplyTo(es[j], g, p.user, deviceId, sent)
  }

  /** Event i served the record's device with an update of its type, and the record has been there ever since. */
  ghost predicate StemsFrom(k: WaitKey, p: Device, es: seq<Event>, i: nat, g: GroupId, id: UpdateId) {
    && i < |es| && Serves(Run(p, es[..i]), es[i], g) && NodeOf(es[i].deviceId) == k.node && k.id == id
    && Carries(SetForDevice(Run(p, es[..i]), g, es[i].deviceId, es[i].now).1, k.typ)
    && PresentSince(p, es, i, k)
  }

  /** Each record that is new since a send began stems from some event that served its device. */
  lemma {:induction false} RecordsStemFromServing(p: Device, es: seq<Event>, g: GroupId, id: UpdateId, begun: ChangeSet,
                                                  k: WaitKey) returns (i: nat)
    requires Sending(p, g, id, begun) && forall e <- es :: DuringSend(e)
    requires k in Run(p, es).waits && k !in p.waits && k.group == g
    ensures StemsFrom(k, p, es, i, g, id)
  {
    assert es != [];
    if k in Run(p, es[..|es| - 1]).waits {
      i := RecordsStemFromServing(p, es[..|es| - 1], g, id, begun, k);
      StemsStill(k, p, es, i, g, id);
    } else {
      i := |es| - 1;
      StemsFromLast(k, p, es, g, id, begun);
    }
  }

  lemma StemsStill(k: WaitKey, p: Device, es: seq<Event>, i: nat, g: GroupId, id: UpdateId)
    requires es != [] && StemsFrom(k, p, es[..|es| - 1], i, g, id) && k in Run(p, es).waits
    ensures StemsFrom(k, p, es, i, g, id)
  {
    StillPresent(p, es, i, k);
    assert es[..|es| - 1][..i] == es[..i];
  }

  lemma StemsFromLast(k: WaitKey, p: Device, es: seq<Event>, g: GroupId, id: UpdateId, begun: ChangeSet)
    requires es != [] && Sending(p, g, id, begun) && forall e <- es :: DuringSend(e)
    requires k in Run(p, es).waits && k !in Run(p, es[..|es| - 1]).waits && k.group == g
    ensures StemsFrom(k, p, es, |es| - 1, g, id)
  {
    SendGoesOn(p, es[..|es| - 1], g, id, begun);
    NewRecord(Run(p, es[..|es| - 1]), es[|es| - 1], g, k);
    assert es[..|es|] == es;
  }

  ghost predicate PresentSince(p: Device, es: seq<Event>, i: nat, k: WaitKey) {
    forall j: nat :: i < j <= |es| ==> k in Run(p, es[..j]).waits
  }

  lemma StillPresent(p: Device, es: seq<Event>, i: nat, k: WaitKey)
    requires es != [] && PresentSince(p, es[..|es| - 1], i, k) && k in Run(p, es).waits
    ensures PresentSince(p, es, i, k)
  {
    var init := es[..|es| - 1];
    forall j: nat | i < j <= |es|
      ensures k in Run(p, es[..j]).waits
    {
      if j == |es| {
        assert es[..j] == es;
      } else {
        assert es[..j] == init[..j];
      }
    }
  }

  lemma NewRecord(d: Device, e: Event, g: GroupId, k: WaitKey)
    requires DuringSend(e) && k.group == g && k in Step(d, e).waits && k !in d.waits
    ensures Serves(d, e, g) && NodeOf(e.deviceId) == k.node && k.id == d.updateId
    ensures Carries(SetForDevice(d, g, e.deviceId, e.now).1, k.typ)
  {
    match e {
      case Serializing(h, deviceId, hasSet, now) =>
        if SendsTo(d, h, deviceId, hasSet) {
          SerializedWaits(d, h, deviceId, now, k);
        }
      case Receiving(h, sender, deviceId, cs, now) =>
        ReceivedFrame(d, h, sender, deviceId, cs, now);
    }
  }

  lemma AnswerAcknowledges(p: Device, es: seq<Event>, i: nat, g: GroupId, id: UpdateId, begun: ChangeSet,
                           fs: seq<Event>, k: WaitKey)
    requires Sending(p, g, id, begun) && id != "" && forall e <- es :: DuringSend(e)
    requires StemsFrom(k, p, es, i, g, id) && IsAnswered(p, es, i, g, begun, fs) && k.group == g
    ensures Acknowledged(fs, k)
  {
    var sent := SetForDevice(Run(p, es[..i]), g, es[i].deviceId, es[i].now).1;
    ServedSet(p, es, i, g, id, begun);
    if f :| f in fs && IsReplyTo(f, g, p.user, es[i].deviceId, sent) {
      ReplyAcknowledgesRecord(f, g, p.user, es[i].deviceId, sent, begun, k);
    } else {
      var j: nat :| i < j < |es| && IsEarlyReply(p, es, j, g, es[i].deviceId, sent);
      ReplyAcknowledgesRecord(es[j], g, p.user, es[i].deviceId, sent, begun, k);
      EarlyAckClears(p, es, j, k);
    }
  }

  lemma ServedSet(p: Device, es: seq<Event>, i: nat, g: GroupId, id: UpdateId, begun: ChangeSet)
    requires Sending(p, g, id, begun) && forall e <- es :: DuringSend(e)
    requires i < |es| && Serves(Run(p, es[..i]), es[i], g)
    ensures var d := Run(p, es[..i]); var sent := SetForDevice(d, g, es[i].deviceId, es[i].now).1;
            d.user == p.user && CarriesId(sent, id) && ListsTravel(sent, begun, id)
  {
    SendGoesOn(p, es[..i], g, id, begun);
    RunKeepsUser(p, es[..i]);
    SerializingKeepsSending(Run(p, es[..i]), g, es[i].deviceId, es[i].now, begun);
  }

  lemma EarlyAckClears(p: Device, es: seq<Event>, j: nat, k: WaitKey)
    requires j < |es| && k.group in Run(p, es[..j]).groups && Acknowledges(es[j], k)
    ensures k !in Run(p, es[..j + 1]).waits
  {
    AckClears(Run(p, es[..j]), es[j], k);
    assert es[..j + 1][..j] == es[..j];
  }

  /** An ACK for a group the device has clears its record, or the group and all its records go. */
  lemma AckClears(d: Device, e: Event, k: WaitKey)
    requires Acknowledges(e, k) && k.group in d.groups
    ensures k !in Step(d, e).waits
  {
    if !IsSiblingLeave(d, e.g, e.sender, e.cs.value) {
      GroupUpdatedClears(d, e.g, NodeOf(e.deviceId), e.cs.value, e.now, k);
    }
  }

  lemma GroupUpdatedClears(d: Device, g: GroupId, node: NodeId, cs: ChangeSet, now: int, k: WaitKey)
    requires g in d.groups && k.group == g && k.node == node
    requires exists a <- cs.acks :: a.id == k.id && a.typ == k.typ
    ensures k !in GroupUpdated(d, g, node, cs, now).waits
  {
    GroupUpdatedFrame(d, g, node, cs, now);
    AcksOnlyRemove(d.(waits := Unexpired(d.waits, now - MK_STORE_TIME)), g, node, cs.acks);
  }

  lemma ReplyAcknowledgesRecord(f: Event, g: GroupId, user: UserId, deviceId: string, sent: ChangeSet, begun: ChangeSet,
                                k: WaitKey)
    requires CarriesId(sent, k.id) && ListsTravel(sent, begun, k.id) && k.id != "" && Carries(sent, k.typ)
    requires k.group == g && k.node == NodeOf(deviceId)
    requires ListsAreAcknowledged(sent, begun) && IsReplyTo(f, g, user, deviceId, sent)
    ensures Acknowledges(f, k)
  {
    var r: Device, senderId: string, later: int :|
      KeepsGroup(r, g, user, sent) && f.cs == MessageReceived(r, g, user, senderId, Some(sent), later).1;
    ReplyNamesSent(r, g, user, senderId, sent, later, begun, k.id, k.typ);
    NamedIsAcknowledged(f, f.cs, k);
  }

  lemma NamedIsAcknowledged(f: Event, reply: Option<ChangeSet>, k: WaitKey)
    requires f.Receiving? && f.g == k.group && NodeOf(f.deviceId) == k.node
    requires f.cs == reply && Names(reply, k.typ, k.id)
    ensures Acknowledges(f, k)
  {
  }

  lemma {:induction false} RunKeepsUser(d: Device, es: seq<Event>)
    requires forall e <- es :: DuringSend(e)
    ensures Run(d, es).user == d.user
  {
    if es != [] {
      RunKeepsUser(d, es[..|es| - 1]);
      UserStays(Run(d, es[..|es| - 1]), es[|es| - 1]);
    }
  }

  // ---------- What is left when a send is finished ----------

  /** One of the ACKs, put in front of the group id, spells the key of the update's pending set. */
  predicate SpelledIn(acks: seq<Ack>, h: GroupId, g: GroupId, id: UpdateId) {
    exists a <- acks :: a.id + h == id + g
  }

  /** The message's ACKs are processed, and one of them spells the key of the update's pending set. */
  predicate Spells(d: Device, e: Event, g: GroupId, id: UpdateId) {
    && e.Receiving? && e.cs.Some? && !IsSiblingLeave(d, e.g, e.sender, e.cs.value)
    && (e.g in d.groups || CreatesGroup(d, e.g, e.cs.value))
    && SpelledIn(e.cs.value.acks, e.g, g, id)
  }

  /** What takes a pending set without records away: an ACK that spells its key, or leaving the group. */
  predicate Settles(d: Device, e: Event, g: GroupId, id: UpdateId) {
    Spells(d, e, g, id) || Removes(d, e, g)
  }

  lemma {:induction false} AcksOnSettled(d: Device, h: GroupId, node: NodeId, acks: seq<Ack>, g: GroupId, id: UpdateId)
    requires (forall k <- d.waits :: |k.id| == UPDATE_ID_LENGTH) && |id| == UPDATE_ID_LENGTH
    requires !Waiting(d.waits, g, id)
    ensures var r := AfterAcks(d, h, node, acks);
            && r.waits.Keys <= d.waits.Keys
            && (id + g in r.pending <==> id + g in d.pending && !SpelledIn(acks, h, g, id))
  {
    if acks != [] {
      var init, last := acks[..|acks| - 1], acks[|acks| - 1];
      AcksOnSettled(d, h, node, init, g, id);
      assert forall a :: a in acks <==> a in init || a == last;
      if last.id + h == id + g {
        SpellingIsSettled(AfterAcks(d, h, node, init).waits, h, last.id, g, id);
      }
    }
  }

  /** An id that spells the key with its group is the update's own, or no record's. */
  lemma SpellingIsSettled(waits: map<WaitKey, int>, h: GroupId, u: UpdateId, g: GroupId, id: UpdateId)
    requires (forall k <- waits :: |k.id| == UPDATE_ID_LENGTH) && |id| == UPDATE_ID_LENGTH
    requires !Waiting(waits, g, id) && u + h == id + g
    ensures !Waiting(waits, h, u)
  {
    if |u| == UPDATE_ID_LENGTH {
      KeySplitsUniquely(u, h, id, g);
    }
  }

  /** Without records of the update, a step keeps its pending set exactly unless it settles it. */
  lemma StepOnSettled(d: Device, e: Event, g: GroupId, id: UpdateId)
    requires IdsFit(d) && |id| == UPDATE_ID_LENGTH && NoSendOf(g, [e]) && !Waiting(d.waits, g, id)
    ensures !Waiting(Step(d, e).waits, g, id)
    ensures id + g in Step(d, e).pending <==> id + g in d.pending && !Settles(d, e, g, id)
  {
    assert e in [e];
    match e {
      case Preparing(h, freshId, rows) =>
        PreparedFrame(d, h, freshId, rows);
      case Serializing(h, deviceId, hasSet, now) =>
        if SendsTo(d, h, deviceId, hasSet) {
          OtherGroupSerialized(d, h, deviceId, now, g);
        }
      case Finishing(h) =>
        KeySplitsUniquely(id, g, d.updateId, h);
      case Receiving(h, sender, deviceId, cs, now) =>
        ReceivedFrame(d, h, sender, deviceId, cs, now);
        ReceivingOnSettled(d, e, g, id);
      case Leaving(h) =>
        KeySplitsUniquely(id, g, id, h);
      case _ =>
        EditFrame(d, e);
    }
  }

  lemma ReceivingOnSettled(d: Device, e: Event, g: GroupId, id: UpdateId)
    requires IdsFit(d) && |id| == UPDATE_ID_LENGTH && !Waiting(d.waits, g, id) && e.Receiving?
    ensures id + g in Step(d, e).pending <==> id + g in d.pending && !Settles(d, e, g, id)
  {
    if e.cs.Some? {
      var h, cs := e.g, e.cs.value;
      if IsSiblingLeave(d, h, e.sender, cs) {
        LeftOnSettled(d, h, g, id);
      } else {
        ChangeSetOnSettled(d, h, e.sender, e.deviceId, cs, e.now, g, id);
      }
    }
  }

  lemma LeftOnSettled(d: Device, h: GroupId, g: GroupId, id: UpdateId)
    requires |id| == UPDATE_ID_LENGTH
    ensures id + g in LeftGroup(d, h).pending <==> id + g in d.pending && h != g
  {
    KeySplitsUniquely(id, g, id, h);
  }

  lemma ChangeSetOnSettled(d: Device, h: GroupId, sender: UserId, deviceId: string, cs: ChangeSet, now: int,
                           g: GroupId, id: UpdateId)
    requires IdsFit(d) && |id| == UPDATE_ID_LENGTH && !Waiting(d.waits, g, id) && !IsSiblingLeave(d, h, sender, cs)
    ensures id + g in ChangeSetReceived(d, h, sender, deviceId, cs, now).0.pending <==>
            id + g in d.pending && !((h in d.groups || CreatesGroup(d, h, cs)) && SpelledIn(cs.acks, h, g, id))
  {
    var d1 := if CreatesGroup(d, h, cs) then GroupInserted(d, h, cs) else d;
    if h in d1.groups {
      GroupUpdatedOnSettled(d1, h, NodeOf(deviceId), cs, now, g, id);
    }
  }

  lemma GroupUpdatedOnSettled(d: Device, h: GroupId, node: NodeId, cs: ChangeSet, now: int, g: GroupId, id: UpdateId)
    requires h in d.groups && (forall k <- d.waits :: |k.id| == UPDATE_ID_LENGTH) && |id| == UPDATE_ID_LENGTH
    requires !Waiting(d.waits, g, id)
    ensures id + g in GroupUpdated(d, h, node, cs, now).pending <==>
            id + g in d.pending && !SpelledIn(cs.acks, h, g, id)
  {
    GroupUpdatedFrame(d, h, node, cs, now);
    AcksOnSettled(d.(waits := Unexpired(d.waits, now - MK_STORE_TIME)), h, node, cs.acks, g, id);
  }

  /** The same over a run: without records the pending set stays exactly until a step settles it. */
  lemma {:induction false} RunOnSettled(d: Device, fs: seq<Event>, g: GroupId, id: UpdateId)
    requires IdsFit(d) && FreshIdsFit(fs) && |id| == UPDATE_ID_LENGTH && NoSendOf(g, fs) && !Waiting(d.waits, g, id)
    ensures !Waiting(Run(d, fs).waits, g, id)
    ensures id + g in Run(d, fs).pending <==>
            id + g in d.pending && !exists j: nat :: j < |fs| && Settles(Run(d, fs[..j]), fs[j], g, id)
  {
    if fs != [] {
      var init, f := fs[..|fs| - 1], fs[|fs| - 1];
      assert fs == init + [f];
      RunOnSettled(d, init, g, id);
      AtMostOnePendingSet(d, init);
      StepOnSettled(Run(d, init), f, g, id);
      assert forall j: nat :: j < |init| ==> fs[..j] == init[..j] && fs[j] == init[j];
    }
  }

  // ---------- A send to the end ----------

  /**
   * A send is prepared under a fresh id, serialized for any devices while messages come in, and finished, and the reply
   * of every device it served comes back, then or later, in any order and amid any other traffic. Its pending set is
   * collected exactly when some record of the send was still there at the finish, or a later step settles the set.
   * The exception is a group that was left during the send and is missing at its finish, with records made since.
   */
  lemma AllRepliesCollectExactlyWhen(d: Device, g: GroupId, freshId: UpdateId, rows: seq<UserId>,
                                     es: seq<Event>, fs: seq<Event>)
    requires IdsFit(d) && StartsSend(d, g) && |freshId| == UPDATE_ID_LENGTH
    requires forall k <- d.waits :: k.group == g ==> k.id != freshId
    requires (forall e <- es :: DuringSend(e)) && NoSendOf(g, fs) && FreshIdsFit(fs)
    requires AllAnswered(SendPrepared(d, g, freshId, rows), es, g, d.current[g], fs)
    ensures var done := SendFinished(Run(SendPrepared(d, g, freshId, rows), es), g);
            var awaited := Waiting(done.waits, g, freshId);
            && freshId + g in done.pending
            && ((awaited ==> g in done.groups) ==>
                 (freshId + g !in Run(done, fs).pending <==>
                  awaited || exists j: nat :: j < |fs| && Settles(Run(done, fs[..j]), fs[j], g, freshId)))
  {
    PreparedSend(d, g, freshId, rows);
    RepliesCollect(SendPrepared(d, g, freshId, rows), es, fs, g, freshId, d.current[g]);
  }

  lemma PreparedSend(d: Device, g: GroupId, freshId: UpdateId, rows: seq<UserId>)
    requires IdsFit(d) && StartsSend(d, g) && |freshId| == UPDATE_ID_LENGTH
    ensures var p := SendPrepared(d, g, freshId, rows);
            IdsFit(p) && Sending(p, g, freshId, d.current[g]) && p.waits == d.waits
  {
    PreparingStartsSending(d, g, freshId, rows);
    PreparedFrame(d, g, freshId, rows);
  }

  lemma RepliesCollect(p: Device, es: seq<Event>, fs: seq<Event>, g: GroupId, id: UpdateId, begun: ChangeSet)
    requires IdsFit(p) && Sending(p, g, id, begun)
    requires forall k <- p.waits :: k.group == g ==> k.id != id
    requires (forall e <- es :: DuringSend(e)) && NoSendOf(g, fs) && FreshIdsFit(fs)
    requires AllAnswered(p, es, g, begun, fs)
    ensures var done := SendFinished(Run(p, es), g);
            var awaited := Waiting(done.waits, g, id);
            && id + g in done.pending
            && ((awaited ==> g in done.groups) ==>
                  (id + g !in Run(done, fs).pending <==>
                   awaited || exists j: nat :: j < |fs| && Settles(Run(done, fs[..j]), fs[j], g, id)))
  {
    var done := SendFinished(Run(p, es), g);
    SendGoesOn(p, es, g, id, begun);
    RunKeepsIdsFit(p, es);
    FinishedSend(Run(p, es), g, id, begun);
    if !Waiting(done.waits, g, id) {
      RunOnSettled(done, fs, g, id);
    } else if g in done.groups {
      forall k <- done.waits | k.group == g && k.id == id
        ensures Acknowledged(fs, k)
      {
        RecordIsAnswered(p, es, fs, g, id, begun, k);
      }
      AllAcksCollectPendingSet(done, fs, g, id);
    }
  }

  /** When every reply came before the finish, the acknowledged set becomes pending all the same, with no record. */
  lemma EarlyRepliesLeaveSetPending(d: Device, g: GroupId, freshId: UpdateId, rows: seq<UserId>, es: seq<Event>)
    requires IdsFit(d) && StartsSend(d, g) && |freshId| == UPDATE_ID_LENGTH
    requires forall k <- d.waits :: k.group == g ==> k.id != freshId
    requires forall e <- es :: DuringSend(e)
    requires AllAnswered(SendPrepared(d, g, freshId, rows), es, g, d.current[g], [])
    ensures var done := SendFinished(Run(SendPrepared(d, g, freshId, rows), es), g);
            freshId + g in done.pending && !Waiting(done.waits, g, freshId)
  {
    PreparedSend(d, g, freshId, rows);
    NothingAwaited(SendPrepared(d, g, freshId, rows), es, g, freshId, d.current[g]);
  }

  lemma NothingAwaited(p: Device, es: seq<Event>, g: GroupId, id: UpdateId, begun: ChangeSet)
    requires IdsFit(p) && Sending(p, g, id, begun)
    requires forall k <- p.waits :: k.group == g ==> k.id != id
    requires forall e <- es :: DuringSend(e)
    requires AllAnswered(p, es, g, begun, [])
    ensures var done := SendFinished(Run(p, es), g); id + g in done.pending && !Waiting(done.waits, g, id)
  {
    SendGoesOn(p, es, g, id, begun);
    RunKeepsIdsFit(p, es);
    FinishedSend(Run(p, es), g, id, begun);
    forall k <- Run(p, es).waits
      ensures !(k.group == g && k.id == id)
    {
      if k.group == g && k.id == id {
        RecordIsAnswered(p, es, [], g, id, begun, k);
      }
    }
  }

  /** One device that answers at once is enough. */
  lemma OneEarlyReply(d: Device, g: GroupId, freshId: UpdateId, rows: seq<UserId>, es: seq<Event>,
                      p: Device, sent: ChangeSet)
    requires IdsFit(d) && StartsSend(d, g) && |freshId| == UPDATE_ID_LENGTH
    requires forall k <- d.waits :: k.group == g ==> k.id != freshId
    requires p == SendPrepared(d, g, freshId, rows) && IsExchange(es, g) && Exchanged(p, es, g, d.current[g], sent)
    ensures var done := SendFinished(Run(p, es), g); freshId + g in done.pending && !Waiting(done.waits, g, freshId)
  {
    PreparedForReply(d, g, freshId, rows);
    PreparedSend(d, g, freshId, rows);
    ExchangeLeavesSetPending(p, es, g, freshId, d.current[g], sent);
  }

  /** The group's set is serialized for a device, and then a message comes in. */
  predicate IsExchange(es: seq<Event>, g: GroupId) {
    |es| == 2 && es[0].Serializing? && es[0].g == g && !es[0].hasSet && es[1].Receiving?
  }

  lemma ExchangeLeavesSetPending(p: Device, es: seq<Event>, g: GroupId, id: UpdateId, begun: ChangeSet, sent: ChangeSet)
    requires IdsFit(p) && Sending(p, g, id, begun) && g in p.groups
    requires forall k <- p.waits :: k.group == g ==> k.id != id
    requires IsExchange(es, g) && Exchanged(p, es, g, begun, sent)
    ensures var done := SendFinished(Run(p, es), g); id + g in done.pending && !Waiting(done.waits, g, id)
  {
    AnsweredAtOnce(p, es, g, begun, sent);
    NothingAwaited(p, es, g, id, begun);
  }

  /** What was serialized carries lists that are acknowledged, and the message is the reply to it. */
  ghost predicate Exchanged(p: Device, es: seq<Event>, g: GroupId, begun: ChangeSet, sent: ChangeSet)
    requires IsExchange(es, g)
  {
    && SendsTo(p, g, es[0].deviceId, false) && sent == SetForDevice(p, g, es[0].deviceId, es[0].now).1
    && ListsAreAcknowledged(sent, begun) && IsReplyTo(es[1], g, p.user, es[0].deviceId, sent)
  }

  lemma AnsweredAtOnce(p: Device, es: seq<Event>, g: GroupId, begun: ChangeSet, sent: ChangeSet)
    requires IsExchange(es, g) && Exchanged(p, es, g, begun, sent) && g in p.groups
    ensures AllAnswered(p, es, g, begun, []) && forall e <- es :: DuringSend(e)
  {
    ServedOnce(p, es, g);
    FirstIsAnswered(p, es, g, begun, sent);
    NotServing(p, es, 1, g, begun, []);
    BothAreAnswered(p, es, g, begun, []);
  }

  lemma BothAreAnswered(p: Device, es: seq<Event>, g: GroupId, begun: ChangeSet, fs: seq<Event>)
    requires |es| == 2 && IsAnswered(p, es, 0, g, begun, fs) && IsAnswered(p, es, 1, g, begun, fs)
    ensures AllAnswered(p, es, g, begun, fs)
  {
    forall i: nat | i < |es|
      ensures IsAnswered(p, es, i, g, begun, fs)
    {
      assert i == 0 || i == 1;
    }
  }

  lemma FirstIsAnswered(p: Device, es: seq<Event>, g: GroupId, begun: ChangeSet, sent: ChangeSet)
    requires IsExchange(es, g) && Exchanged(p, es, g, begun, sent)
    requires Run(p, es[..0]) == p && g in Run(p, es[..1]).groups
    ensures IsAnswered(p, es, 0, g, begun, [])
  {
    assert IsEarlyReply(p, es, 1, g, es[0].deviceId, sent);
  }

  lemma NotServing(p: Device, es: seq<Event>, i: nat, g: GroupId, begun: ChangeSet, fs: seq<Event>)
    requires i < |es| && !es[i].Serializing?
    ensures IsAnswered(p, es, i, g, begun, fs)
  {
  }

  lemma ServedOnce(p: Device, es: seq<Event>, g: GroupId)
    requires IsExchange(es, g) && SendsTo(p, g, es[0].deviceId, false)
    ensures Run(p, es[..0]) == p && Run(p, es[..1]).groups == p.groups && forall e <- es :: DuringSend(e)
  {
    RunOfOne(p, es[0]);
    assert es[..1] == [es[0]];
    SerializedFrame(p, g, es[0].deviceId, es[0].now);
  }

  /** Such an exchange: a group is named, and a device that has the group answers before the send is finished. */
  lemma NameAnsweredAtOnce(d: Device, g: GroupId, name: string, freshId: UpdateId, r: Device)
    requires IdsFit(d) && StartsSend(d, g) && g in d.groups && g in r.groups && |freshId| == UPDATE_ID_LENGTH
    requires d.current[g] == ClockClash.Named(name, "", map[]) && d.waits == map[] && d.pending == map[]
    ensures var p := SendPrepared(d, g, freshId, []);
            var sent := SetForDevice(p, g, "peer", 0).1;
            var answer := Receiving(g, r.user, "peer", MessageReceived(r, g, d.user, "device", Some(sent), 0).1, 0);
            var done := SendFinished(Run(p, [Serializing(g, "peer", false, 0), answer]), g);
            freshId + g in done.pending && !Waiting(done.waits, g, freshId)
  {
    var p := SendPrepared(d, g, freshId, []);
    var clock := Increment(RegisterOf(d, g, SetName).Clock(), d.node);
    NameServed(d, g, name, freshId, p, clock);
    var sent := ClockClash.Named(name, freshId, clock);
    var answer := Receiving(g, r.user, "peer", MessageReceived(r, g, d.user, "device", Some(sent), 0).1, 0);
    NameIsAnswered(r, g, d.user, name, freshId, clock, answer);
    NameExchanged(d, g, name, freshId, p, sent, [Serializing(g, "peer", false, 0), answer]);
  }

  lemma NameExchanged(d: Device, g: GroupId, name: string, freshId: UpdateId, p: Device, sent: ChangeSet,
                      es: seq<Event>)
    requires IdsFit(d) && StartsSend(d, g) && |freshId| == UPDATE_ID_LENGTH
    requires d.current[g] == ClockClash.Named(name, "", map[]) && d.waits == map[]
    requires p == SendPrepared(d, g, freshId, []) && IsExchange(es, g) && es[0] == Serializing(g, "peer", false, 0)
    requires SetForDevice(p, g, "peer", 0).1 == sent && sent.add == sent.rm == None && SendsTo(p, g, "peer", false)
    requires IsReplyTo(es[1], g, d.user, "peer", sent)
    ensures var done := SendFinished(Run(p, es), g); freshId + g in done.pending && !Waiting(done.waits, g, freshId)
  {
    PreparedForReply(d, g, freshId, []);
    assert Exchanged(p, es, g, d.current[g], sent);
    OneEarlyReply(d, g, freshId, [], es, p, sent);
  }

  lemma NameServed(d: Device, g: GroupId, name: string, freshId: UpdateId, p: Device, clock: Clock)
    requires StartsSend(d, g) && g in d.groups && d.pending == map[]
    requires d.current[g] == ClockClash.Named(name, "", map[])
    requires p == SendPrepared(d, g, freshId, []) && clock == Increment(RegisterOf(d, g, SetName).Clock(), d.node)
    ensures SetForDevice(p, g, "peer", 0).1 == ClockClash.Named(name, freshId, clock)
    ensures SendsTo(p, g, "peer", false)
  {
    ClockClash.NamePrepared(d, g, name, freshId);
    PreparedFrame(d, g, freshId, []);
    assert PendingKey(p, g).None?;
  }

  lemma NameIsAnswered(r: Device, g: GroupId, user: UserId, name: string, id: UpdateId, clock: Clock, e: Event)
    requires g in r.groups
    requires var reply := MessageReceived(r, g, user, "device", Some(ClockClash.Named(name, id, clock)), 0).1;
             e == Receiving(g, r.user, "peer", reply, 0)
    ensures IsReplyTo(e, g, user, "peer", ClockClash.Named(name, id, clock))
  {
    var sent := ClockClash.Named(name, id, clock);
    ReplyNamesExactly(r, g, user, "device", sent, 0, SetName, id);
  }

  lemma PreparedForReply(d: Device, g: GroupId, freshId: UpdateId, rows: seq<UserId>)
    requires StartsSend(d, g)
    ensures var p := SendPrepared(d, g, freshId, rows); g in p.groups && p.user == d.user
  {
    PreparedHasGroup(d, g, freshId, rows);
    PreparedFrame(d, g, freshId, rows);
  }

  lemma PreparedHasGroup(d: Device, g: GroupId, freshId: UpdateId, rows: seq<UserId>)
    requires StartsSend(d, g)
    ensures g in SendPrepared(d, g, freshId, rows).groups
  {
    var d0 := SendBegun(d, g, freshId);
    StampedAllFrame(d0, g, d.current[g]);
    var (d1, cs1) := StampedAll(d0, g, d.current[g]);
    MembersFrame(d1, g, BurnPrepared(d1, cs1), rows);
  }

  lemma FinishedSend(s: Device, g: GroupId, id: UpdateId, begun: ChangeSet)
    requires IdsFit(s) && Sending(s, g, id, begun)
    ensures var done := SendFinished(s, g);
            IdsFit(done) && done.waits == s.waits && done.groups == s.groups && id + g in done.pending
  {
    StepKeepsIdsFit(s, Finishing(g));
  }

  lemma RecordIsAnswered(p: Device, es: seq<Event>, fs: seq<Event>, g: GroupId, id: UpdateId, begun: ChangeSet,
                         k: WaitKey)
    requires Sending(p, g, id, begun) && id != "" && forall e <- es :: DuringSend(e)
    requires AllAnswered(p, es, g, begun, fs)
    requires k in Run(p, es).waits && k !in p.waits && k.group == g && k.id == id
    ensures Acknowledged(fs, k)
  {
    var i := RecordsStemFromServing(p, es, g, id, begun, k);
    AnswerAcknowledges(p, es, i, g, id, begun, fs, k);
  }

  lemma RunKeepsIdsFit(p: Device, es: seq<Event>)
    requires IdsFit(p) && forall e <- es :: DuringSend(e)
    ensures IdsFit(Run(p, es))
  {
    assert FreshIdsFit(es);
    AtMostOnePendingSet(p, es);
  }
}
