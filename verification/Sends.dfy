/** A send from its first call to its last: result codes, what each device is served, and what is filed in the end. */
module Sends {
  import opened Wrappers
  import opened VectorClocks
  import opened UpdateOrder
  import opened Registers
  import opened ChangeSets
  import opened GroupProtocol
  import opened GroupRuns
  import opened WaitRecords
  import opened CarryOver
  import opened Editing

  // ---------- Result codes ----------

  /** What preparing a send returns, and that it changes nothing unless it starts one. */
  lemma PreparingOutcome(d: Device, g: GroupId, freshId: UpdateId, rows: seq<UserId>)
    ensures SendPreparedCode(d, g) == DataMissing <==> g == ""
    ensures SendPreparedCode(d, g) == GroupUpdateRunning <==> g != "" && g in d.current && d.updateInProgress
    ensures SendPreparedCode(d, g) == Success <==> g != "" && (g !in d.current || !d.updateInProgress)
    ensures SendPreparedCode(d, g) != Success || g !in d.current ==> SendPrepared(d, g, freshId, rows) == d
  {
  }

  /**
   * What serializing for a device returns. Only a set with updates, while a send is under way and the message has none
   * of its own, is served; a set without updates locks up; a send without a set is inconsistent.
   */
  lemma SerializingOutcome(d: Device, g: GroupId, deviceId: string, hasSet: bool, now: int)
    ensures var code, missing := SerializingCode(d, g, deviceId, hasSet), g == "" || deviceId == "";
            var sending := !missing && !hasSet && d.updateInProgress;
            && (code == DataMissing <==> missing)
            && (code == SelfDeadlock <==> sending && g in d.current && !d.current[g].HasUpdates())
            && (code == GroupUpdateInconsistent <==> sending && g !in d.current)
            && (code == Success <==> !missing && (sending ==> g in d.current && d.current[g].HasUpdates()))
            && (!sending || code != Success ==> Step(d, Serializing(g, deviceId, hasSet, now)) == d)
  {
  }

  /** Outside a send the group's stored set is returned exactly when one of its records has the device's textual id. */
  lemma ResendsExactlyWhen(d: Device, g: GroupId, deviceId: string)
    requires PendingUnique(d) && g != "" && deviceId != "" && !d.updateInProgress
    ensures var resent := WithoutSend(d, g, deviceId, false).1;
            forall key <- d.pending | IsKeyOf(key, g) ::
              resent == if exists k <- d.waits :: k.group == g && k.id == deviceId then Some(d.pending[key]) else None
    ensures (forall key <- d.pending :: !IsKeyOf(key, g)) ==> WithoutSend(d, g, deviceId, false).1 == None
  {
    forall key <- d.pending | IsKeyOf(key, g)
      ensures PendingKey(d, g) == Some(key)
    {
      OnlyPendingKey(d, g, key);
    }
  }

  /**
   * Finishing ends the send: the group's set is filed under the id of the send in place of any older one, and what
   * belongs to other groups stays. Without a set of the group only the older pending sets go and the id is cleared;
   * without a send nothing happens.
   */
  lemma FinishOutcome(d: Device, g: GroupId)
    ensures var f, key := Step(d, Finishing(g)), d.updateId + g;
            if !d.updateInProgress then f == d
            else
              && f == d.(updateId := f.updateId, pending := f.pending, current := f.current,
                         updateInProgress := f.updateInProgress)
              && |f.updateId| == UPDATE_ID_LENGTH && (forall c <- f.updateId :: c == '\0')
              && f.current == d.current - {g} && (f.updateInProgress <==> g !in d.current)
              && (forall k | !IsKeyOf(k, g) && k != key :: k in f.pending <==> k in d.pending)
              && (forall k | IsKeyOf(k, g) && k != key :: k !in f.pending)
              && (key in f.pending <==> key in d.pending || g in d.current)
              && (forall k <- f.pending :: f.pending[k] == if k in d.pending then d.pending[k] else d.current[g])
  {
  }

  // ---------- What every device is served ----------

  function ClockOf(d: Device, g: GroupId, t: MetaType): Clock {
    if (g, t) in d.clocks then d.clocks[(g, t)].clock else map[]
  }

  /** The update that a send of the device makes of one that was edited: its own count goes up, under the fresh id. */
  function Minted(d: Device, g: GroupId, t: MetaType, id: UpdateId, edited: Option<Update>): Option<Update> {
    if edited.None? then None else Some(Update(id, Increment(ClockOf(d, g, t), d.node), edited.value.value))
  }

  /** The set has what was edited of the type, freshly stamped, and the messages named for burning. */
  predicate Conveys(cs: ChangeSet, d: Device, g: GroupId, id: UpdateId, begun: ChangeSet, t: MetaType) {
    && (begun.Meta(t).Some? ==> cs.Meta(t) == Minted(d, g, t, id, begun.Meta(t)))
    && cs.burnMessage == if begun.burnMessage.None? then None else
         Some(BurnList(id, begun.burnMessage.value.msgIds, begun.burnMessage.value.member))
  }

  lemma PreparedConveys(d: Device, g: GroupId, freshId: UpdateId, rows: seq<UserId>, t: MetaType)
    requires StartsSend(d, g)
    ensures Conveys(SendPrepared(d, g, freshId, rows).current[g], d, g, freshId, d.current[g], t)
    ensures forall l: ListType :: NamesIn(d.current[g], l) <= NamesIn(SendPrepared(d, g, freshId, rows).current[g], l)
  {
    var d0 := SendBegun(d, g, freshId);
    PreparedIsSet(d, g, freshId, rows);
    StampedConveys(d0, g, d.current[g], rows, t);
    BeginningKeepsClocks(d, g, freshId, PreparedSet(d0, g, d.current[g], rows), t);
  }

  lemma BeginningKeepsClocks(d: Device, g: GroupId, freshId: UpdateId, cs: ChangeSet, t: MetaType)
    requires g in d.current && Conveys(cs, SendBegun(d, g, freshId), g, freshId, d.current[g], t)
    ensures Conveys(cs, d, g, freshId, d.current[g], t)
  {
    assert ClockOf(SendBegun(d, g, freshId), g, t) == ClockOf(d, g, t);
  }

  /** The set that a send begins with, stamped and with its member lists prepared. */
  ghost function PreparedSet(d: Device, g: GroupId, cs: ChangeSet, rows: seq<UserId>): ChangeSet
    requires g in d.groups
  {
    StampedAllFrame(d, g, cs);
    var (d1, cs1) := StampedAll(d, g, cs);
    var (d2, cs2) := AddsPrepared(d1, g, BurnPrepared(d1, cs1), rows);
    RemovesPrepared(d2, g, cs2).1
  }

  lemma PreparedIsSet(d: Device, g: GroupId, freshId: UpdateId, rows: seq<UserId>)
    requires StartsSend(d, g)
    ensures SendPrepared(d, g, freshId, rows).current[g] == PreparedSet(SendBegun(d, g, freshId), g, d.current[g], rows)
  {
  }

  lemma StampedConveys(d: Device, g: GroupId, cs: ChangeSet, rows: seq<UserId>, t: MetaType)
    requires g in d.groups
    ensures Conveys(PreparedSet(d, g, cs, rows), d, g, d.updateId, cs, t)
    ensures forall l: ListType :: NamesIn(cs, l) <= NamesIn(PreparedSet(d, g, cs, rows), l)
  {
    StampedAllFrame(d, g, cs);
    StampedAllMints(d, g, cs, t);
    var (d1, cs1) := StampedAll(d, g, cs);
    BurnKept(d1, cs1, t);
    MembersKeepSettings(d1, g, BurnPrepared(d1, cs1), rows, t);
  }

  lemma StampedAllMints(d: Device, g: GroupId, cs: ChangeSet, t: MetaType)
    requires g in d.groups
    ensures var stamped := StampedAll(d, g, cs).1;
            && stamped.Meta(t) == Minted(d, g, t, d.updateId, cs.Meta(t))
            && stamped.burnMessage == cs.burnMessage && stamped.add == cs.add && stamped.rm == cs.rm
  {
    StampedMints(d, g, SetName, cs, t);
    var (d1, cs1) := Stamped(d, g, SetName, cs);
    StampedMints(d1, g, SetAvatar, cs1, t);
    var (d2, cs2) := Stamped(d1, g, SetAvatar, cs1);
    StampedMints(d2, g, SetBurn, cs2, t);
  }

  lemma StampedMints(d: Device, g: GroupId, s: MetaType, cs: ChangeSet, t: MetaType)
    requires g in d.groups
    ensures var (d1, cs1) := Stamped(d, g, s, cs);
            && g in d1.groups && d1.updateId == d.updateId && d1.node == d.node
            && cs1.Meta(t) == (if s == t then Minted(d, g, t, d.updateId, cs.Meta(t)) else cs.Meta(t))
            && (s != t ==> ClockOf(d1, g, t) == ClockOf(d, g, t))
            && cs1.burnMessage == cs.burnMessage && cs1.add == cs.add && cs1.rm == cs.rm
  {
  }

  lemma BurnKept(d: Device, cs: ChangeSet, t: MetaType)
    ensures var after := BurnPrepared(d, cs);
            && after.Meta(t) == cs.Meta(t) && after.add == cs.add && after.rm == cs.rm
            && after.burnMessage == if cs.burnMessage.None? then None else
                 Some(BurnList(d.updateId, cs.burnMessage.value.msgIds, cs.burnMessage.value.member))
  {
  }

  lemma MembersKeepSettings(d: Device, g: GroupId, cs: ChangeSet, rows: seq<UserId>, t: MetaType)
    requires g in d.groups
    ensures var (d1, cs1) := AddsPrepared(d, g, cs, rows);
            var cs2 := RemovesPrepared(d1, g, cs1).1;
            && (cs.Meta(t).Some? ==> cs2.Meta(t) == cs.Meta(t)) && cs2.burnMessage == cs.burnMessage
            && forall l: ListType :: NamesIn(cs, l) <= NamesIn(cs2, l)
  {
    AppendedAllMeaning(cs.AddNames(), rows);
  }

  lemma ServingConveys(s: Device, deviceId: string, now: int, d: Device, g: GroupId, id: UpdateId, begun: ChangeSet,
                       t: MetaType)
    requires g in s.current && Conveys(s.current[g], d, g, id, begun, t)
    ensures var (s1, sent) := SetForDevice(s, g, deviceId, now);
            g in s1.current && s1.current[g] == sent && Conveys(sent, d, g, id, begun, t)
  {
    CollapsedFrame(s, g, NodeOf(deviceId), s.current[g]);
  }

  /** The group's set conveys what the send began with, and has its names. */
  predicate Sends(s: Device, d: Device, g: GroupId, id: UpdateId, begun: ChangeSet, t: MetaType, l: ListType) {
    g in s.current && Conveys(s.current[g], d, g, id, begun, t) && NamesIn(begun, l) <= NamesIn(s.current[g], l)
  }

  lemma StepSends(s: Device, e: Event, d: Device, g: GroupId, id: UpdateId, begun: ChangeSet, t: MetaType, l: ListType)
    requires Sends(s, d, g, id, begun, t, l) && DuringSend(e)
    ensures Sends(Step(s, e), d, g, id, begun, t, l)
  {
    match e {
      case Serializing(h, deviceId, hasSet, now) =>
        if SendsTo(s, h, deviceId, hasSet) {
          SerializedFrame(s, h, deviceId, now);
          if h == g {
            ServingConveys(s, deviceId, now, d, g, id, begun, t);
            ServingKeepsNames(s, g, deviceId, now, l);
          }
        }
      case Receiving(h, sender, deviceId, cs, now) =>
        ReceivedFrame(s, h, sender, deviceId, cs, now);
    }
  }

  lemma {:induction false} RunSends(p: Device, es: seq<Event>, d: Device, g: GroupId, id: UpdateId, begun: ChangeSet,
                                    t: MetaType, l: ListType)
    requires Sends(p, d, g, id, begun, t, l) && forall e <- es :: DuringSend(e)
    ensures Sends(Run(p, es), d, g, id, begun, t, l)
  {
    if es != [] {
      RunSends(p, es[..|es| - 1], d, g, id, begun, t, l);
      StepSends(Run(p, es[..|es| - 1]), es[|es| - 1], d, g, id, begun, t, l);
    }
  }

  /**
   * Whatever messages come in meanwhile, every device that a send serves, and in the end the pending set, gets all that
   * was edited: each value under the device's clock counted up by one and the id of the send, every message named for
   * burning, and every name of the two lists.
   */
  lemma EveryDeviceIsServedTheEdits(d: Device, g: GroupId, freshId: UpdateId, rows: seq<UserId>, es: seq<Event>,
                                    deviceId: string, now: int, t: MetaType, l: ListType)
    requires StartsSend(d, g) && forall e <- es :: DuringSend(e)
    ensures var s, begun := Run(SendPrepared(d, g, freshId, rows), es), d.current[g];
            && g in s.current
            && var sent := SetForDevice(s, g, deviceId, now).1;
               Conveys(sent, d, g, freshId, begun, t) && NamesIn(begun, l) <= NamesIn(sent, l)
    ensures var s, begun := Run(SendPrepared(d, g, freshId, rows), es), d.current[g];
            Conveys(s.current[g], d, g, freshId, begun, t) && NamesIn(begun, l) <= NamesIn(s.current[g], l)
  {
    var p := SendPrepared(d, g, freshId, rows);
    PreparedConveys(d, g, freshId, rows, t);
    RunSends(p, es, d, g, freshId, d.current[g], t, l);
    ServingConveys(Run(p, es), deviceId, now, d, g, freshId, d.current[g], t);
    ServingKeepsNames(Run(p, es), g, deviceId, now, l);
  }

  /** What a send under a fresh id files in the end is the set as it was after the last device. */
  lemma ServedSetIsFiled(d: Device, g: GroupId, freshId: UpdateId, rows: seq<UserId>, es: seq<Event>)
    requires StartsSend(d, g) && freshId + g !in d.pending && forall e <- es :: DuringSend(e)
    ensures var s := Run(SendPrepared(d, g, freshId, rows), es);
            var f := SendFinished(s, g);
            && g in s.current && freshId + g in f.pending && f.pending[freshId + g] == s.current[g]
            && g !in f.current && !f.updateInProgress
  {
    var p := SendPrepared(d, g, freshId, rows);
    PreparingStartsSending(d, g, freshId, rows);
    PreparedFrame(d, g, freshId, rows);
    SendGoesOn(p, es, g, freshId, d.current[g]);
    SendingKeepsKeyOut(p, es, freshId + g);
    FinishOutcome(Run(p, es), g);
  }
}
