/** Two sends of one group: what a device left unacknowledged of the first comes to it with the second. */
module CarryOver {
  import opened Wrappers
  import opened VectorClocks
  import opened UpdateOrder
  import opened Registers
  import opened ChangeSets
  import opened GroupProtocol
  import opened GroupRuns
  import opened RegisterRuns
  import opened WaitRecords
  import opened RecordLife

  /** The names of one member list. */
  function NamesIn(cs: ChangeSet, t: ListType): set<UserId> {
    if cs.List(t).Some? then Elements(cs.List(t).value.names) else {}
  }

  // ---------- Names only join while a set is sent ----------

  lemma ServingKeepsNames(d: Device, g: GroupId, deviceId: string, now: int, t: ListType)
    requires g in d.current
    ensures NamesIn(d.current[g], t) <= NamesIn(SetForDevice(d, g, deviceId, now).1, t)
  {
    CollapsingKeepsNames(d, g, NodeOf(deviceId), d.current[g], t);
  }

  lemma CollapsingKeepsNames(d: Device, g: GroupId, node: NodeId, cs: ChangeSet, t: ListType)
    ensures NamesIn(cs, t) <= NamesIn(Collapsed(d, g, node, cs).1, t)
  {
    var key := PendingKey(d, g);
    if key.Some? {
      var older, id := d.pending[key.value], key.value[..UPDATE_ID_LENGTH];
      CollapsedAddsMeaning(d, WaitKey(g, node, id, AddMember), older.AddNames(), cs);
      var (d1, cs1) := CollapsedAdds(d, WaitKey(g, node, id, AddMember), older.AddNames(), cs);
      CollapsedRmsMeaning(d1, WaitKey(g, node, id, RemoveMember), older.RmNames(), cs1);
    }
  }

  // ---------- The first send ----------

  /** Nothing of the device's answer to the list, or of the user's departure, in the event. */
  ghost predicate LeavesOpen(user: UserId, e: Event, k: WaitKey, since: int) {
    && !Acknowledges(e, k) && !IsDeparture(user, e, k.group) && !Misspells(e, k.group, k.id)
    && (e.Receiving? ==> e.now <= since + THIRTY_ONE_DAYS)
  }

  /** The list was served under the id of the send, which goes on: record and names are there. */
  ghost predicate IsServed(d: Device, k: WaitKey, since: int, names: set<UserId>) {
    && IdsFit(d) && d.updateInProgress && d.updateId == k.id && k.id + k.group !in d.pending
    && k in d.waits && d.waits[k] >= since
    && (k.typ == AddMember || k.typ == RemoveMember)
    && k.group in d.current && names <= NamesIn(d.current[k.group], k.typ)
  }

  lemma StepKeepsServed(d: Device, e: Event, k: WaitKey, since: int, names: set<UserId>)
    requires IsServed(d, k, since, names) && DuringSend(e) && LeavesOpen(d.user, e, k, since)
    ensures IsServed(Step(d, e), k, since, names) && Step(d, e).user == d.user
  {
    UserStays(d, e);
    StepKeepsIdsFit(d, e);
    ServedRecordStays(d, e, k, since);
    match e {
      case Serializing(h, deviceId, hasSet, now) =>
        if SendsTo(d, h, deviceId, hasSet) {
          SerializedFrame(d, h, deviceId, now);
          ServingKeepsNames(d, h, deviceId, now, k.typ);
        }
      case Receiving(h, sender, deviceId, cs, now) =>
        ReceivedFrame(d, h, sender, deviceId, cs, now);
    }
  }

  lemma ServedRecordStays(d: Device, e: Event, k: WaitKey, since: int)
    requires IdsFit(d) && d.updateId == k.id && k.id + k.group !in d.pending && k in d.waits && d.waits[k] >= since
    requires (k.typ == AddMember || k.typ == RemoveMember) && DuringSend(e) && LeavesOpen(d.user, e, k, since)
    ensures k in Step(d, e).waits && Step(d, e).waits[k] >= since
  {
    RecordGoesExactlyWhen(d, e, k);
  }

  lemma {:induction false} RunKeepsServed(d: Device, es: seq<Event>, k: WaitKey, since: int, names: set<UserId>)
    requires IsServed(d, k, since, names)
    requires forall e <- es :: DuringSend(e) && LeavesOpen(d.user, e, k, since)
    ensures IsServed(Run(d, es), k, since, names) && Run(d, es).user == d.user
  {
    if es != [] {
      RunKeepsServed(d, es[..|es| - 1], k, since, names);
      StepKeepsServed(Run(d, es[..|es| - 1]), es[|es| - 1], k, since, names);
    }
  }

  // ---------- Between the two sends ----------

  /** The list is filed with its names, and still awaited. */
  ghost predicate IsFiled(d: Device, k: WaitKey, since: int, names: set<UserId>) {
    && IdsFit(d) && k in d.waits && d.waits[k] >= since && (k.typ == AddMember || k.typ == RemoveMember)
    && k.id + k.group in d.pending && names <= NamesIn(d.pending[k.id + k.group], k.typ)
  }

  lemma FinishingFiles(d: Device, k: WaitKey, since: int, names: set<UserId>)
    requires IsServed(d, k, since, names)
    ensures IsFiled(SendFinished(d, k.group), k, since, names) && SendFinished(d, k.group).user == d.user
  {
    StepKeepsIdsFit(d, Finishing(k.group));
  }

  lemma WaitingKeepsFiled(d: Device, es: seq<Event>, k: WaitKey, since: int, names: set<UserId>)
    requires IsFiled(d, k, since, names) && FreshIdsFit(es) && NoSendOf(k.group, es)
    requires forall e <- es :: LeavesOpen(d.user, e, k, since)
    ensures IsFiled(Run(d, es), k, since, names) && Run(d, es).user == d.user
  {
    forall e <- es
      ensures Spares(d.user, e, k, d.waits[k]) && SparesSet(e, k)
    {
      assert LeavesOpen(d.user, e, k, since);
    }
    RecordStays(d, es, k);
    AwaitedSetStays(d, es, k);
    AtMostOnePendingSet(d, es);
  }

  lemma PreparingKeepsFiled(d: Device, g: GroupId, freshId: UpdateId, rows: seq<UserId>, k: WaitKey, since: int,
                            names: set<UserId>)
    requires IsFiled(d, k, since, names) && StartsSend(d, g) && |freshId| == UPDATE_ID_LENGTH
    ensures var p := SendPrepared(d, g, freshId, rows);
            IsFiled(p, k, since, names) && g in p.current && p.updateId == freshId && p.user == d.user
  {
    PreparedFrame(d, g, freshId, rows);
  }

  // ---------- The second send ----------

  /** The names are in the set being sent, or still filed and awaited. */
  ghost predicate IsOwed(d: Device, k: WaitKey, since: int, names: set<UserId>) {
    && IdsFit(d) && k.group in d.current && d.updateId != k.id && (k.typ == AddMember || k.typ == RemoveMember)
    && (names <= NamesIn(d.current[k.group], k.typ) || IsFiled(d, k, since, names))
  }

  lemma ServingPays(d: Device, deviceId: string, now: int, k: WaitKey, since: int, names: set<UserId>)
    requires IsOwed(d, k, since, names) && NodeOf(deviceId) == k.node
    ensures names <= NamesIn(SetForDevice(d, k.group, deviceId, now).1, k.typ)
  {
    ServingKeepsNames(d, k.group, deviceId, now, k.typ);
    if !(names <= NamesIn(d.current[k.group], k.typ)) {
      KeySplitsUniquely(k.id, k.group, k.id, k.group);
      assert (k.id + k.group)[..UPDATE_ID_LENGTH] == k.id;
      UnacknowledgedNamesAreCarriedOver(d, k.group, deviceId, now, k.id + k.group);
    }
  }

  lemma StepKeepsOwed(d: Device, e: Event, k: WaitKey, since: int, names: set<UserId>)
    requires IsOwed(d, k, since, names) && DuringSend(e) && LeavesOpen(d.user, e, k, since)
    ensures IsOwed(Step(d, e), k, since, names) && Step(d, e).user == d.user
  {
    UserStays(d, e);
    StepKeepsIdsFit(d, e);
    match e {
      case Serializing(h, deviceId, hasSet, now) =>
        if SendsTo(d, h, deviceId, hasSet) {
          ServingKeepsOwed(d, e, k, since, names);
        }
      case Receiving(h, sender, deviceId, cs, now) =>
        ReceivedFrame(d, h, sender, deviceId, cs, now);
        if IsFiled(d, k, since, names) {
          ReceivingKeepsFiled(d, e, k, since, names);
        }
    }
  }

  lemma ServingKeepsOwed(d: Device, e: Event, k: WaitKey, since: int, names: set<UserId>)
    requires IsOwed(d, k, since, names) && e.Serializing? && SendsTo(d, e.g, e.deviceId, e.hasSet)
    requires IdsFit(Step(d, e))
    ensures IsOwed(Step(d, e), k, since, names)
  {
    SerializedFrame(d, e.g, e.deviceId, e.now);
    if e.g == k.group && NodeOf(e.deviceId) == k.node {
      ServingPays(d, e.deviceId, e.now, k, since, names);
    } else {
      ServingKeepsNames(d, e.g, e.deviceId, e.now, k.typ);
      if k in d.waits {
        RecordGoesExactlyWhen(d, e, k);
      }
    }
  }

  lemma ReceivingKeepsFiled(d: Device, e: Event, k: WaitKey, since: int, names: set<UserId>)
    requires IsFiled(d, k, since, names) && e.Receiving? && LeavesOpen(d.user, e, k, since)
    ensures IsFiled(Step(d, e), k, since, names)
  {
    StepKeepsIdsFit(d, e);
    SparedStays(d, e, k);
    SparedSetStays(d, e, k);
  }

  lemma {:induction false} RunKeepsOwed(d: Device, es: seq<Event>, k: WaitKey, since: int, names: set<UserId>)
    requires IsOwed(d, k, since, names)
    requires forall e <- es :: DuringSend(e) && LeavesOpen(d.user, e, k, since)
    ensures IsOwed(Run(d, es), k, since, names) && Run(d, es).user == d.user
  {
    if es != [] {
      RunKeepsOwed(d, es[..|es| - 1], k, since, names);
      StepKeepsOwed(Run(d, es[..|es| - 1]), es[|es| - 1], k, since, names);
    }
  }

  // ---------- Both sends ----------

  /** Whatever the events serialize for the node was serialized at the given time or later. */
  predicate ServedSince(es: seq<Event>, g: GroupId, node: NodeId, since: int) {
    forall e <- es :: e.Serializing? && e.g == g && NodeOf(e.deviceId) == node ==> e.now >= since
  }

  lemma {:induction false} RecordIsRecent(p: Device, es: seq<Event>, k: WaitKey, since: int)
    requires IdsFit(p) && FreshIdsFit(es) && k !in p.waits && ServedSince(es, k.group, k.node, since)
    ensures k in Run(p, es).waits ==> Run(p, es).waits[k] >= since
  {
    if es != [] {
      var init, e := es[..|es| - 1], es[|es| - 1];
      assert es == init + [e];
      RecordIsRecent(p, init, k, since);
      AtMostOnePendingSet(p, init);
      if k in Run(p, init).waits {
        RecordGoesExactlyWhen(Run(p, init), e, k);
      } else if k in Step(Run(p, init), e).waits {
        NewRecordHasTime(Run(p, init), e, k);
      }
    }
  }

  lemma {:induction false} SendingKeepsKeyOut(p: Device, es: seq<Event>, key: string)
    requires key !in p.pending && forall e <- es :: DuringSend(e)
    ensures key !in Run(p, es).pending && Run(p, es).user == p.user
  {
    if es != [] {
      SendingKeepsKeyOut(p, es[..|es| - 1], key);
      UserStays(Run(p, es[..|es| - 1]), es[|es| - 1]);
      StepAddsNoKey(Run(p, es[..|es| - 1]), es[|es| - 1]);
    }
  }

  lemma StepAddsNoKey(d: Device, e: Event)
    requires DuringSend(e)
    ensures Step(d, e).pending.Keys <= d.pending.Keys
  {
    match e {
      case Serializing(h, deviceId, hasSet, now) =>
        if SendsTo(d, h, deviceId, hasSet) {
          SerializedFrame(d, h, deviceId, now);
        }
      case Receiving(h, sender, deviceId, cs, now) =>
        ReceivedFrame(d, h, sender, deviceId, cs, now);
    }
  }

  /** Serving a device during a send leaves its list served. */
  lemma ServingServes(d: Device, g: GroupId, deviceId: string, now: int, t: ListType, since: int)
    requires IdsFit(d) && d.updateInProgress && g in d.current && d.updateId + g !in d.pending
    requires SetForDevice(d, g, deviceId, now).1.List(t).Some?
    requires var k := WaitKey(g, NodeOf(deviceId), d.updateId, t); var s := SetForDevice(d, g, deviceId, now).0;
             IdsFit(s) && (k in s.waits ==> s.waits[k] >= since)
    ensures var (s, sent) := SetForDevice(d, g, deviceId, now);
            IsServed(s, WaitKey(g, NodeOf(deviceId), d.updateId, t), since, NamesIn(sent, t))
  {
    SerializingRecords(d, g, deviceId, now, t);
    SerializedFrame(d, g, deviceId, now);
  }

  /** What event i of a send serialized. */
  ghost function SetServed(p: Device, es: seq<Event>, i: nat, g: GroupId): ChangeSet
    requires i < |es| && es[i].Serializing? && g in Run(p, es[..i]).current
  {
    SetForDevice(Run(p, es[..i]), g, es[i].deviceId, es[i].now).1
  }

  /** Event i serves the record's device with a list of its type, and later events leave the answer open. */
  ghost predicate IsLeftOpen(p: Device, es: seq<Event>, i: nat, k: WaitKey, t: ListType, since: int) {
    && i < |es| && Serves(Run(p, es[..i]), es[i], k) && k.typ == t
    && SetServed(p, es, i, k.group).List(t).Some?
    && ServedSince(es[..i + 1], k.group, k.node, since)
    && StaysOpen(es, i + 1, p.user, k, since)
  }

  ghost predicate StaysOpen(es: seq<Event>, n: nat, user: UserId, k: WaitKey, since: int) {
    n <= |es| && forall e <- es[n..] :: LeavesOpen(user, e, k, since)
  }

  lemma ServedAtLast(p: Device, es: seq<Event>, i: nat, k: WaitKey, t: ListType, since: int, begun: ChangeSet)
    requires IdsFit(p) && Sending(p, k.group, k.id, begun) && forall e <- es :: DuringSend(e)
    requires k !in p.waits && k.id + k.group !in p.pending && IsLeftOpen(p, es, i, k, t, since)
    ensures IsServed(Run(p, es[..i + 1]), k, since, NamesIn(SetServed(p, es, i, k.group), t))
    ensures Run(p, es[..i + 1]).user == p.user
  {
    var now := es[..i + 1];
    assert now[..|now| - 1] == es[..i] && now[|now| - 1] == es[i];
    ServedNow(p, now, k, t, since, begun);
  }

  lemma ServedNow(p: Device, es: seq<Event>, k: WaitKey, t: ListType, since: int, begun: ChangeSet)
    requires IdsFit(p) && Sending(p, k.group, k.id, begun) && es != [] && forall e <- es :: DuringSend(e)
    requires k !in p.waits && k.id + k.group !in p.pending && ServedSince(es, k.group, k.node, since)
    requires var d, e := Run(p, es[..|es| - 1]), es[|es| - 1];
             && Serves(d, e, k) && k.typ == t && SetForDevice(d, k.group, e.deviceId, e.now).1.List(t).Some?
    ensures var d, e := Run(p, es[..|es| - 1]), es[|es| - 1];
            && k.group in d.current
            && IsServed(Run(p, es), k, since, NamesIn(SetForDevice(d, k.group, e.deviceId, e.now).1, t))
            && Run(p, es).user == p.user
  {
    var d, e := Run(p, es[..|es| - 1]), es[|es| - 1];
    BeforeServing(p, es[..|es| - 1], k, begun);
    AfterServing(p, es, k, since);
    ServingServes(d, k.group, e.deviceId, e.now, t, since);
  }

  lemma BeforeServing(p: Device, es: seq<Event>, k: WaitKey, begun: ChangeSet)
    requires IdsFit(p) && Sending(p, k.group, k.id, begun) && forall e <- es :: DuringSend(e)
    requires k.id + k.group !in p.pending
    ensures var d := Run(p, es);
            && IdsFit(d) && d.updateInProgress && d.updateId == k.id && k.group in d.current && d.user == p.user
            && k.id + k.group !in d.pending
  {
    SendGoesOn(p, es, k.group, k.id, begun);
    SendingKeepsKeyOut(p, es, k.id + k.group);
    AtMostOnePendingSet(p, es);
  }

  lemma AfterServing(p: Device, es: seq<Event>, k: WaitKey, since: int)
    requires IdsFit(p) && es != [] && forall e <- es :: DuringSend(e)
    requires k !in p.waits && ServedSince(es, k.group, k.node, since)
    requires Serves(Run(p, es[..|es| - 1]), es[|es| - 1], k)
    ensures var d, s, e := Run(p, es[..|es| - 1]), Run(p, es), es[|es| - 1];
            && s == SetForDevice(d, k.group, e.deviceId, e.now).0
            && IdsFit(s) && (k in s.waits ==> s.waits[k] >= since) && s.user == d.user
  {
    assert FreshIdsFit(es);
    AtMostOnePendingSet(p, es);
    RecordIsRecent(p, es, k, since);
    UserStays(Run(p, es[..|es| - 1]), es[|es| - 1]);
  }

  lemma FirstSendFiles(p: Device, es: seq<Event>, i: nat, k: WaitKey, t: ListType, since: int, begun: ChangeSet)
    requires IdsFit(p) && Sending(p, k.group, k.id, begun) && forall e <- es :: DuringSend(e)
    requires k !in p.waits && k.id + k.group !in p.pending && IsLeftOpen(p, es, i, k, t, since)
    ensures IsFiled(SendFinished(Run(p, es), k.group), k, since, NamesIn(SetServed(p, es, i, k.group), t))
    ensures SendFinished(Run(p, es), k.group).user == p.user
  {
    ServedAtLast(p, es, i, k, t, since, begun);
    ServedIsFiled(p, es, i + 1, k, since, NamesIn(SetServed(p, es, i, k.group), t));
  }

  lemma ServedIsFiled(p: Device, es: seq<Event>, n: nat, k: WaitKey, since: int, names: set<UserId>)
    requires StaysOpen(es, n, p.user, k, since) && forall e <- es :: DuringSend(e)
    requires IsServed(Run(p, es[..n]), k, since, names) && Run(p, es[..n]).user == p.user
    ensures var done := SendFinished(Run(p, es), k.group); IsFiled(done, k, since, names) && done.user == p.user
  {
    RunContinues(p, es, n);
    RunKeepsServed(Run(p, es[..n]), es[n..], k, since, names);
    FinishingFiles(Run(p, es), k, since, names);
  }

  lemma SecondSendPays(s: Device, freshId: UpdateId, rows: seq<UserId>, hs: seq<Event>, deviceId: string, now: int,
                       k: WaitKey, since: int, names: set<UserId>)
    requires IsFiled(s, k, since, names) && StartsSend(s, k.group) && |freshId| == UPDATE_ID_LENGTH && freshId != k.id
    requires (forall e <- hs :: DuringSend(e) && LeavesOpen(s.user, e, k, since)) && NodeOf(deviceId) == k.node
    ensures var q := Run(SendPrepared(s, k.group, freshId, rows), hs);
            && k.group in q.current
            && var (after, second) := SetForDevice(q, k.group, deviceId, now);
               && names <= NamesIn(second, k.typ)
               && (names != {} ==> WaitKey(k.group, k.node, freshId, k.typ) in after.waits)
  {
    var p := SendPrepared(s, k.group, freshId, rows);
    PreparingKeepsFiled(s, k.group, freshId, rows, k, since, names);
    RunKeepsOwed(p, hs, k, since, names);
    ServingPays(Run(p, hs), deviceId, now, k, since, names);
    RunKeepsUpdateId(p, hs);
    if names != {} {
      SerializingRecords(Run(p, hs), k.group, deviceId, now, k.typ);
    }
  }

  lemma {:induction false} RunKeepsUpdateId(d: Device, es: seq<Event>)
    requires forall e <- es :: DuringSend(e)
    ensures Run(d, es).updateId == d.updateId
  {
    if es != [] {
      RunKeepsUpdateId(d, es[..|es| - 1]);
      StepKeepsUpdateId(Run(d, es[..|es| - 1]), es[|es| - 1]);
    }
  }

  lemma StepKeepsUpdateId(d: Device, e: Event)
    requires DuringSend(e)
    ensures Step(d, e).updateId == d.updateId
  {
    match e {
      case Serializing(h, deviceId, hasSet, now) =>
        if SendsTo(d, h, deviceId, hasSet) {
          SerializedFrame(d, h, deviceId, now);
        }
      case Receiving(h, sender, deviceId, cs, now) =>
        ReceivedFrame(d, h, sender, deviceId, cs, now);
    }
  }

  /**
   * Carry-over across two sends. A first send serves a device with an add list, or a remove list, and is finished; a
   * second send of the group follows, with any traffic before, between and within the two. If the device has not
   * acknowledged the first list, within 31 days and as long as the user stays in the group, the set that the second
   * send serializes for it has every name of that first list, whichever devices were served before it, and is awaited.
   */
  lemma UnacknowledgedNamesReachNextSend(d: Device, k: WaitKey, t: ListType, rows: seq<UserId>, es: seq<Event>, i: nat,
                                         fs: seq<Event>, nextId: UpdateId, nextRows: seq<UserId>, hs: seq<Event>,
                                         deviceId: string, now: int, since: int)
    requires IdsFit(d) && StartsSend(d, k.group) && |k.id| == |nextId| == UPDATE_ID_LENGTH && nextId != k.id
    requires k !in d.waits && k.id + k.group !in d.pending && NodeOf(deviceId) == k.node
    requires (forall e <- es :: DuringSend(e)) && IsLeftOpen(SendPrepared(d, k.group, k.id, rows), es, i, k, t, since)
    requires FreshIdsFit(fs) && NoSendOf(k.group, fs) && forall e <- fs :: LeavesOpen(d.user, e, k, since)
    requires forall e <- hs :: DuringSend(e) && LeavesOpen(d.user, e, k, since)
    requires StartsSend(Run(SendFinished(Run(SendPrepared(d, k.group, k.id, rows), es), k.group), fs), k.group)
    ensures var p := SendPrepared(d, k.group, k.id, rows);
            var first := SetServed(p, es, i, k.group);
            var s := Run(SendFinished(Run(p, es), k.group), fs);
            var q := Run(SendPrepared(s, k.group, nextId, nextRows), hs);
            && k.group in q.current
            && var (after, second) := SetForDevice(q, k.group, deviceId, now);
               && NamesIn(first, t) <= NamesIn(second, t)
               && (NamesIn(first, t) != {} ==> WaitKey(k.group, k.node, nextId, t) in after.waits)
  {
    var p := SendPrepared(d, k.group, k.id, rows);
    PreparingStartsSending(d, k.group, k.id, rows);
    PreparedFrame(d, k.group, k.id, rows);
    FirstSendFiles(p, es, i, k, t, since, d.current[k.group]);
    var done := SendFinished(Run(p, es), k.group);
    var names := NamesIn(SetServed(p, es, i, k.group), t);
    WaitingKeepsFiled(done, fs, k, since, names);
    SecondSendPays(Run(done, fs), nextId, nextRows, hs, deviceId, now, k, since, names);
  }
}
