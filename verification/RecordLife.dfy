/** How long a wait record, and the pending set of its update, stay: exactly when a step takes one of them away. */
module RecordLife {
  import opened Wrappers
  import opened VectorClocks
  import opened UpdateOrder
  import opened ChangeSets
  import opened GroupProtocol
  import opened GroupRuns
  import opened RegisterRuns
  import opened WaitRecords

  const THIRTY_ONE_DAYS: int := 31 * 24 * 60 * 60

  // ---------- What ends a record ----------

  /** The message's ACKs are processed: it comes for a group the device has, or creates, and does not make it leave. */
  predicate IsProcessed(d: Device, e: Event) {
    && e.Receiving? && e.cs.Some? && !IsSiblingLeave(d, e.g, e.sender, e.cs.value)
    && (e.g in d.groups || CreatesGroup(d, e.g, e.cs.value))
  }

  /** A message with ACKs clears the record it acknowledges, and every record made more than 31 days before. */
  ghost predicate Clears(d: Device, e: Event, k: WaitKey)
    requires k in d.waits
  {
    IsProcessed(d, e) && e.cs.value.acks != [] && (Acknowledges(e, k) || e.now > d.waits[k] + THIRTY_ONE_DAYS)
  }

  /** The group's set is serialized for the device of the record. */
  predicate Serves(d: Device, e: Event, k: WaitKey) {
    e.Serializing? && e.g == k.group && NodeOf(e.deviceId) == k.node && SendsTo(d, e.g, e.deviceId, e.hasSet)
  }

  /** The pending set of the record's update has a list of its type that names someone. */
  predicate HasPendingNames(d: Device, k: WaitKey) {
    && k.id + k.group in d.pending
    && ((k.typ == AddMember && d.pending[k.id + k.group].AddNames() != [])
        || (k.typ == RemoveMember && d.pending[k.id + k.group].RmNames() != []))
  }

  /** A newer clocked update of the type takes the record's place, or its names are carried over. */
  ghost predicate Touches(d: Device, e: Event, k: WaitKey) {
    && Serves(d, e, k)
    && ((IsMeta(k.typ) && Carries(SetForDevice(d, e.g, e.deviceId, e.now).1, k.typ)) || HasPendingNames(d, k))
  }

  /**
   * A step takes a record away exactly when it clears it, leaves the group, or serializes for the device under another
   * id what takes its place. Otherwise it keeps the time of the record, unless the same send serves the device again.
   */
  lemma RecordGoesExactlyWhen(d: Device, e: Event, k: WaitKey)
    requires IdsFit(d) && k in d.waits
    ensures k !in Step(d, e).waits <==>
            Clears(d, e, k) || Removes(d, e, k.group) || (Touches(d, e, k) && k.id != d.updateId)
    ensures k in Step(d, e).waits ==> Step(d, e).waits[k] == if Touches(d, e, k) then e.now else d.waits[k]
  {
    match e {
      case Preparing(h, freshId, rows) =>
        PreparedFrame(d, h, freshId, rows);
      case Serializing(h, deviceId, hasSet, now) =>
        if SendsTo(d, h, deviceId, hasSet) {
          ServingKeepsExactly(d, e, k);
        }
      case Receiving(h, sender, deviceId, cs, now) =>
        ReceivingKeepsExactly(d, e, k);
      case Finishing(_) =>
      case Leaving(_) =>
      case _ =>
        EditFrame(d, e);
    }
  }

  /** A record that is new after a step has the time of the step. */
  lemma NewRecordHasTime(d: Device, e: Event, k: WaitKey)
    requires k !in d.waits && k in Step(d, e).waits
    ensures Serves(d, e, k) && k.id == d.updateId && Step(d, e).waits[k] == e.now
  {
    match e {
      case Preparing(h, freshId, rows) =>
        PreparedFrame(d, h, freshId, rows);
      case Serializing(h, deviceId, hasSet, now) =>
        if SendsTo(d, h, deviceId, hasSet) {
          ServedRecords(d, h, deviceId, now, k);
        }
      case Receiving(h, sender, deviceId, cs, now) =>
        ReceivedFrame(d, h, sender, deviceId, cs, now);
      case Finishing(_) =>
      case Leaving(_) =>
      case _ =>
        EditFrame(d, e);
    }
  }

  lemma ServingKeepsExactly(d: Device, e: Event, k: WaitKey)
    requires IdsFit(d) && k in d.waits && e.Serializing? && SendsTo(d, e.g, e.deviceId, e.hasSet)
    ensures k !in Step(d, e).waits <==> Touches(d, e, k) && k.id != d.updateId
    ensures k in Step(d, e).waits ==> Step(d, e).waits[k] == if Touches(d, e, k) then e.now else d.waits[k]
  {
    ServedRecords(d, e.g, e.deviceId, e.now, k);
    CollapsedRecords(d, e.g, NodeOf(e.deviceId), d.current[e.g], k);
  }

  /** The records after serializing, with their times, in terms of those left by collapsing. */
  lemma ServedRecords(d: Device, g: GroupId, deviceId: string, now: int, k: WaitKey)
    requires g in d.current
    ensures var (s, sent) := SetForDevice(d, g, deviceId, now);
            var before := Collapsed(d, g, NodeOf(deviceId), d.current[g]).0.waits;
            var own := k.group == g && k.node == NodeOf(deviceId) && Carries(sent, k.typ);
            && before.Keys <= d.waits.Keys
            && (k in s.waits <==> (own && k.id == d.updateId) || (k in before && !(own && IsMeta(k.typ))))
            && (k in s.waits ==> s.waits[k] == if k in before && !(own && IsMeta(k.typ)) then before[k] else now)
  {
    CollapsedFrame(d, g, NodeOf(deviceId), d.current[g]);
    var (d1, cs1) := Collapsed(d, g, NodeOf(deviceId), d.current[g]);
    var cs2 := if cs1.add.Some? then Completed(d1, g, cs1) else cs1;
    WaitsRecordedMeaning(d1.waits, g, NodeOf(deviceId), d.updateId, cs2, now, k);
    WaitsRecordedTimes(d1.waits, g, NodeOf(deviceId), d.updateId, cs2, now, k);
  }

  lemma WaitsRecordedTimes(waits: map<WaitKey, int>, g: GroupId, node: NodeId, id: UpdateId, cs: ChangeSet, now: int,
                           k: WaitKey)
    ensures var after := WaitsRecorded(waits, g, node, id, cs, now);
            var replaced := k.group == g && k.node == node && IsMeta(k.typ) && Carries(cs, k.typ);
            k in after ==> after[k] == if k in waits && !replaced then waits[k] else now
  {
    MetaWaitsMeaning(waits, g, node, id, cs, now, k);
    MetaWaitsTimes(waits, g, node, id, cs, now, k);
  }

  lemma MetaWaitsTimes(waits: map<WaitKey, int>, g: GroupId, node: NodeId, id: UpdateId, cs: ChangeSet, now: int,
                       k: WaitKey)
    ensures var after := MetaWaitsRecorded(waits, g, node, id, cs, now);
            var replaced := k.group == g && k.node == node && IsMeta(k.typ) && Carries(cs, k.typ);
            k in after ==> after[k] == if k in waits && !replaced then waits[k] else now
  {
  }

  /** Collapsing takes exactly the records whose names are carried over, and no time changes. */
  lemma CollapsedRecords(d: Device, g: GroupId, node: NodeId, cs: ChangeSet, k: WaitKey)
    requires IdsFit(d) && k in d.waits
    ensures var after := Collapsed(d, g, node, cs).0.waits;
            && (k in after <==> !(k.group == g && k.node == node && HasPendingNames(d, k)))
            && (k in after ==> after[k] == d.waits[k])
  {
    var key := PendingKey(d, g);
    if key.Some? {
      var older, id := d.pending[key.value], key.value[..UPDATE_ID_LENGTH];
      assert key.value == id + g;
      var addWait, rmWait := WaitKey(g, node, id, AddMember), WaitKey(g, node, id, RemoveMember);
      CollapsedAddsMeaning(d, addWait, older.AddNames(), cs);
      var (d1, cs1) := CollapsedAdds(d, addWait, older.AddNames(), cs);
      CollapsedRmsMeaning(d1, rmWait, older.RmNames(), cs1);
      KeySplitsUniquely(k.id, k.group, id, g);
    }
    if k.group == g && k.id + g in d.pending {
      PendingOfRecord(d, g, k);
    }
  }

  lemma PendingOfRecord(d: Device, g: GroupId, k: WaitKey)
    requires IdsFit(d) && |k.id| == UPDATE_ID_LENGTH && k.group == g && k.id + g in d.pending
    ensures PendingKey(d, g) == Some(k.id + g)
  {
    KeySplitsUniquely(k.id, g, k.id, g);
    OnlyPendingKey(d, g, k.id + g);
  }

  lemma ReceivingKeepsExactly(d: Device, e: Event, k: WaitKey)
    requires k in d.waits && e.Receiving?
    ensures k !in Step(d, e).waits <==> Clears(d, e, k) || Removes(d, e, k.group)
    ensures k in Step(d, e).waits ==> Step(d, e).waits[k] == d.waits[k]
  {
    if IsProcessed(d, e) {
      ProcessedIsUpdate(d, e);
      UpdatingKeepsExactly(Joined(d, e), e.g, NodeOf(e.deviceId), e.cs.value, e.now, k);
    } else {
      UnprocessedIs(d, e);
    }
  }

  /** The device once it has the group of the message. */
  function Joined(d: Device, e: Event): Device
    requires e.Receiving? && e.cs.Some?
  {
    if CreatesGroup(d, e.g, e.cs.value) then GroupInserted(d, e.g, e.cs.value) else d
  }

  lemma ProcessedIsUpdate(d: Device, e: Event)
    requires IsProcessed(d, e)
    ensures var d1 := Joined(d, e);
            && e.g in d1.groups && d1.waits == d.waits && d1.pending == d.pending
            && Step(d, e) == GroupUpdated(d1, e.g, NodeOf(e.deviceId), e.cs.value, e.now)
  {
  }

  lemma UnprocessedIs(d: Device, e: Event)
    requires e.Receiving? && !IsProcessed(d, e)
    ensures var s := Step(d, e);
            if Removes(d, e, e.g) then s == LeftGroup(d, e.g) else s.waits == d.waits && s.pending == d.pending
  {
  }

  lemma UpdatingKeepsExactly(d: Device, g: GroupId, node: NodeId, cs: ChangeSet, now: int, k: WaitKey)
    requires g in d.groups && k in d.waits
    ensures var after := GroupUpdated(d, g, node, cs, now).waits;
            var named := k.group == g && k.node == node && exists a <- cs.acks :: a.id == k.id && a.typ == k.typ;
            && (k in after <==> cs.acks == [] || (!named && now <= d.waits[k] + THIRTY_ONE_DAYS))
            && (k in after ==> after[k] == d.waits[k])
  {
    GroupUpdatedFrame(d, g, node, cs, now);
    AcksTakeExactly(d.(waits := Unexpired(d.waits, now - MK_STORE_TIME)), g, node, cs.acks, k);
  }

  /** The ACKs of a message take the records they name, and no time changes. */
  lemma {:induction false} AcksTakeExactly(d: Device, g: GroupId, node: NodeId, acks: seq<Ack>, k: WaitKey)
    ensures var after := AfterAcks(d, g, node, acks).waits;
            && (k in after <==> k in d.waits && !(k.group == g && k.node == node
                                                  && exists a <- acks :: a.id == k.id && a.typ == k.typ))
            && (k in after ==> after[k] == d.waits[k])
  {
    if acks != [] {
      var init, last := acks[..|acks| - 1], acks[|acks| - 1];
      AcksTakeExactly(d, g, node, init, k);
      assert forall a :: a in acks <==> a in init || a == last;
    }
  }

  /** Records know a device by the first sixteen digits of its id: an ACK from any device that shares them counts. */
  lemma NodesMeetExactlyWhen(a: string, b: string)
    ensures NodeOf(a) == NodeOf(b) <==> a == b || (|a| >= 16 && |b| >= 16 && a[..16] == b[..16])
  {
    assert |a| == 16 ==> a[..16] == a;
    assert |b| == 16 ==> b[..16] == b;
  }

  // ---------- What ends a pending set that is awaited ----------

  /** A later send of the group is finished. */
  predicate Replaces(d: Device, e: Event, g: GroupId, id: UpdateId) {
    e == Finishing(g) && d.updateInProgress && d.updateId != id
  }

  /** An ACK whose id has not its fixed width spells the key of the set. */
  predicate Misspells(e: Event, g: GroupId, id: UpdateId) {
    && e.Receiving? && e.cs.Some?
    && exists a <- e.cs.value.acks :: |a.id| != UPDATE_ID_LENGTH && a.id + e.g == id + g
  }

  /**
   * While a record of an update is left, a step takes its pending set away exactly when it finishes a later send of the
   * group, or processes an ACK of another width that spells its key. Otherwise the set stays as it is.
   */
  lemma AwaitedSetGoesExactlyWhen(d: Device, e: Event, g: GroupId, id: UpdateId)
    requires IdsFit(d) && |id| == UPDATE_ID_LENGTH && id + g in d.pending
    requires Waiting(Step(d, e).waits, g, id)
    ensures id + g !in Step(d, e).pending <==> Replaces(d, e, g, id) || (IsProcessed(d, e) && Misspells(e, g, id))
    ensures id + g in Step(d, e).pending ==> Step(d, e).pending[id + g] == d.pending[id + g]
  {
    match e {
      case Preparing(h, freshId, rows) =>
        PreparedFrame(d, h, freshId, rows);
      case Serializing(h, deviceId, hasSet, now) =>
        if SendsTo(d, h, deviceId, hasSet) {
          SerializedFrame(d, h, deviceId, now);
        }
      case Receiving(h, sender, deviceId, cs, now) =>
        ReceivingKeepsAwaitedSet(d, e, g, id);
      case Finishing(h) =>
        KeySplitsUniquely(id, g, d.updateId, h);
      case Leaving(h) =>
        KeySplitsUniquely(id, g, id, h);
      case _ =>
        EditFrame(d, e);
    }
  }

  lemma ReceivingKeepsAwaitedSet(d: Device, e: Event, g: GroupId, id: UpdateId)
    requires IdsFit(d) && |id| == UPDATE_ID_LENGTH && id + g in d.pending && e.Receiving?
    requires Waiting(Step(d, e).waits, g, id)
    ensures id + g !in Step(d, e).pending <==> IsProcessed(d, e) && Misspells(e, g, id)
    ensures id + g in Step(d, e).pending ==> Step(d, e).pending[id + g] == d.pending[id + g]
  {
    if IsProcessed(d, e) {
      ProcessedIsUpdate(d, e);
      UpdatingKeepsAwaitedSet(Joined(d, e), e.g, NodeOf(e.deviceId), e.cs.value, e.now, g, id);
    } else {
      UnprocessedIs(d, e);
      KeySplitsUniquely(id, g, id, e.g);
    }
  }

  lemma UpdatingKeepsAwaitedSet(d: Device, h: GroupId, node: NodeId, cs: ChangeSet, now: int, g: GroupId, id: UpdateId)
    requires h in d.groups && (forall k <- d.waits :: |k.id| == UPDATE_ID_LENGTH) && |id| == UPDATE_ID_LENGTH
    requires id + g in d.pending && Waiting(GroupUpdated(d, h, node, cs, now).waits, g, id)
    ensures var after := GroupUpdated(d, h, node, cs, now).pending;
            && (id + g !in after <==> exists a <- cs.acks :: |a.id| != UPDATE_ID_LENGTH && a.id + h == id + g)
            && (id + g in after ==> after[id + g] == d.pending[id + g])
  {
    GroupUpdatedFrame(d, h, node, cs, now);
    if cs.acks != [] {
      AcksKeepAwaitedSet(d.(waits := Unexpired(d.waits, now - MK_STORE_TIME)), h, node, cs.acks, g, id);
    }
  }

  lemma {:induction false} AcksKeepAwaitedSet(d: Device, h: GroupId, node: NodeId, acks: seq<Ack>, g: GroupId,
                                              id: UpdateId)
    requires (forall k <- d.waits :: |k.id| == UPDATE_ID_LENGTH) && |id| == UPDATE_ID_LENGTH && id + g in d.pending
    requires Waiting(AfterAcks(d, h, node, acks).waits, g, id)
    ensures var after := AfterAcks(d, h, node, acks).pending;
            && (id + g !in after <==> exists a <- acks :: |a.id| != UPDATE_ID_LENGTH && a.id + h == id + g)
            && (id + g in after ==> after[id + g] == d.pending[id + g])
  {
    if acks != [] {
      var init, last := acks[..|acks| - 1], acks[|acks| - 1];
      var before := AfterAcks(d, h, node, init);
      AcksOnlyRemove(d, h, node, init);
      AcksKeepAwaitedSet(d, h, node, init, g, id);
      assert forall a :: a in acks <==> a in init || a == last;
      if |last.id| == UPDATE_ID_LENGTH {
        KeySplitsUniquely(last.id, h, id, g);
      }
    }
  }

  // ---------- Over runs ----------

  /** The event is no answer to the record, no departure from its group, and no newer set for its device. */
  ghost predicate Spares(user: UserId, e: Event, k: WaitKey, since: int) {
    && !Acknowledges(e, k) && (e.Receiving? ==> e.now <= since + THIRTY_ONE_DAYS)
    && !IsDeparture(user, e, k.group)
    && !(e.Serializing? && e.g == k.group && NodeOf(e.deviceId) == k.node)
  }

  /** The user leaves the group, or has left it from another device. */
  predicate IsDeparture(user: UserId, e: Event, g: GroupId) {
    || e == Leaving(g)
    || (e.Receiving? && e.g == g && e.cs.Some? && e.sender == user && e.cs.value.RemovesOnly(user))
  }

  /** A record that every event of a run spares is still there at its end, with its time. */
  lemma {:induction false} RecordStays(d: Device, es: seq<Event>, k: WaitKey)
    requires IdsFit(d) && FreshIdsFit(es) && k in d.waits
    requires forall e <- es :: Spares(d.user, e, k, d.waits[k])
    ensures k in Run(d, es).waits && Run(d, es).waits[k] == d.waits[k] && Run(d, es).user == d.user
  {
    if es != [] {
      var init, e := es[..|es| - 1], es[|es| - 1];
      assert es == init + [e];
      RecordStays(d, init, k);
      AtMostOnePendingSet(d, init);
      SparedStays(Run(d, init), e, k);
    }
  }

  lemma SparedStays(d: Device, e: Event, k: WaitKey)
    requires IdsFit(d) && k in d.waits && Spares(d.user, e, k, d.waits[k])
    ensures k in Step(d, e).waits && Step(d, e).waits[k] == d.waits[k] && Step(d, e).user == d.user
  {
    RecordGoesExactlyWhen(d, e, k);
    UserStays(d, e);
  }

  /** The event finishes no send of the record's group, and misspells no ACK. */
  predicate SparesSet(e: Event, k: WaitKey) {
    e != Finishing(k.group) && !Misspells(e, k.group, k.id)
  }

  /**
   * While some record of an update is spared, its pending set stays as it was filed, whatever else happens, unless a
   * send of the group is finished or an ACK of another width spells its key.
   */
  lemma {:induction false} AwaitedSetStays(d: Device, es: seq<Event>, k: WaitKey)
    requires IdsFit(d) && FreshIdsFit(es) && k in d.waits && k.id + k.group in d.pending
    requires forall e <- es :: Spares(d.user, e, k, d.waits[k])
    requires forall e <- es :: SparesSet(e, k)
    ensures k.id + k.group in Run(d, es).pending
    ensures Run(d, es).pending[k.id + k.group] == d.pending[k.id + k.group]
  {
    if es != [] {
      var init, e := es[..|es| - 1], es[|es| - 1];
      assert es == init + [e];
      AwaitedSetStays(d, init, k);
      RecordStays(d, init, k);
      AtMostOnePendingSet(d, init);
      SparedSetStays(Run(d, init), e, k);
    }
  }

  lemma SparedSetStays(d: Device, e: Event, k: WaitKey)
    requires IdsFit(d) && k in d.waits && Spares(d.user, e, k, d.waits[k])
    requires k.id + k.group in d.pending && SparesSet(e, k)
    ensures k.id + k.group in Step(d, e).pending
    ensures Step(d, e).pending[k.id + k.group] == d.pending[k.id + k.group]
  {
    SparedStays(d, e, k);
    AwaitedSetGoesExactlyWhen(d, e, k.group, k.id);
  }

  /**
   * ACK collection in both directions. Over 31 days from the oldest record of an update, without a departure from the
   * group, a newer send of it, or a misspelt ACK, its pending set is gone exactly when every awaited device and type
   * has acknowledged it.
   */
  lemma CollectedExactlyWhenAcknowledged(d: Device, es: seq<Event>, g: GroupId, id: UpdateId)
    requires IdsFit(d) && FreshIdsFit(es) && |id| == UPDATE_ID_LENGTH
    requires g in d.groups && Waiting(d.waits, g, id) && id + g in d.pending && NoSendOf(g, es)
    requires forall e <- es :: !IsDeparture(d.user, e, g) && !Misspells(e, g, id)
    requires forall e <- es, k <- d.waits | e.Receiving? && k.group == g && k.id == id ::
               e.now <= d.waits[k] + THIRTY_ONE_DAYS
    ensures id + g !in Run(d, es).pending <==>
            forall k <- d.waits | k.group == g && k.id == id :: Acknowledged(es, k)
  {
    if forall k <- d.waits | k.group == g && k.id == id :: Acknowledged(es, k) {
      AllAcksCollectPendingSet(d, es, g, id);
    } else {
      var k :| k in d.waits && k.group == g && k.id == id && !Acknowledged(es, k);
      forall e <- es
        ensures Spares(d.user, e, k, d.waits[k]) && SparesSet(e, k)
      {
        assert !Acknowledges(e, k);
      }
      AwaitedSetStays(d, es, k);
    }
  }
}
