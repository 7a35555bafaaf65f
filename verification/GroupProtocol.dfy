/**
 * What one device stores about its groups, and the meaning of each protocol operation on it.
 * GroupDevice holds the operations in the imperative form they are run in.
 */
module GroupProtocol {
  import opened Wrappers
  import opened VectorClocks
  import opened UpdateOrder
  import opened Registers
  import opened ChangeSets

  const MK_STORE_TIME: int := 31 * 86400
  const BURN_FROM_SEND_RETROACTIVE: int := 1

  datatype Code = Success | DataMissing | IllegalArgument | NoSuchActiveGroup | GroupUpdateRunning
    | GroupUpdateInconsistent | GenericError | CorruptData | SelfDeadlock

  datatype Group = Group(name: Payload, avatar: Payload, burn: Payload, members: set<UserId>) {
    function Meta(t: MetaType): Payload {
      match t case SetName => name case SetAvatar => avatar case SetBurn => burn
    }

    function WithMeta(t: MetaType, value: Payload): Group {
      match t
      case SetName => this.(name := value)
      case SetAvatar => this.(avatar := value)
      case SetBurn => this.(burn := value)
    }
  }

  /** Primary key of the wait-for-ACK table. */
  datatype WaitKey = WaitKey(group: GroupId, node: NodeId, id: UpdateId, typ: UpdateType)

  datatype Device = Device(
    user: UserId,
    node: NodeId,
    groups: map<GroupId, Group>,
    clocks: map<(GroupId, UpdateType), LocalClock>,
    current: map<GroupId, ChangeSet>,
    pending: map<string, ChangeSet>,        // keyed by update id followed by group id
    waits: map<WaitKey, int>,               // with the time each record was made
    updateInProgress: bool,
    updateId: UpdateId,
    sentRemoveTo: seq<string>)

  /** Clocks and wait records use the first eight bytes, sixteen hex digits, of a device id. */
  function NodeOf(deviceId: string): NodeId {
    if |deviceId| <= 16 then deviceId else deviceId[..16]
  }

  // ---------- Registers of a group ----------

  function Local(d: Device, g: GroupId, t: MetaType): Option<LocalClock> {
    if (g, t) in d.clocks then Some(d.clocks[(g, t)]) else None
  }

  function RegisterOf(d: Device, g: GroupId, t: MetaType): Register
    requires g in d.groups
  {
    Register(d.groups[g].Meta(t), Local(d, g, t))
  }

  function WithRegister(d: Device, g: GroupId, t: MetaType, reg: Register): Device
    requires g in d.groups
  {
    d.(groups := d.groups[g := d.groups[g].WithMeta(t, reg.value)],
       clocks := if reg.local.Some? then d.clocks[(g, t) := reg.local.value] else d.clocks)
  }

  /** Writing back what is stored changes nothing. */
  lemma WithOwnRegister(d: Device, g: GroupId, t: MetaType)
    requires g in d.groups
    ensures WithRegister(d, g, t, RegisterOf(d, g, t)) == d
  {
  }

  // ---------- Receiving ----------

  predicate Waiting(waits: map<WaitKey, int>, g: GroupId, id: UpdateId) {
    exists k <- waits :: k.group == g && k.id == id
  }

  /** One ACK: its wait record goes, and with the last record of the update its pending set. */
  ghost function AfterAck(d: Device, g: GroupId, node: NodeId, ack: Ack): Device {
    var waits := d.waits - {WaitKey(g, node, ack.id, ack.typ)};
    d.(waits := waits, pending := if Waiting(waits, g, ack.id) then d.pending else d.pending - {ack.id + g})
  }

  ghost function AfterAcks(d: Device, g: GroupId, node: NodeId, acks: seq<Ack>): Device {
    if acks == [] then d
    else AfterAck(AfterAcks(d, g, node, acks[..|acks| - 1]), g, node, acks[|acks| - 1])
  }

  function Unexpired(waits: map<WaitKey, int>, since: int): map<WaitKey, int> {
    map k | k in waits && waits[k] >= since :: waits[k]
  }

  ghost function ProcessedAcks(d: Device, g: GroupId, node: NodeId, acks: seq<Ack>, now: int): Device {
    AfterAcks(d.(waits := Unexpired(d.waits, now - MK_STORE_TIME)), g, node, acks)
  }

  ghost function MetaReceived(d: Device, g: GroupId, t: MetaType, u: Option<Update>): Device
    requires g in d.groups
  {
    if u.Some? then WithRegister(d, g, t, Received(RegisterOf(d, g, t), u.value)) else d
  }

  ghost function MetaAcks(d: Device, g: GroupId, t: MetaType, u: Option<Update>): seq<Ack>
    requires g in d.groups
  {
    if u.Some? then [Ack(t, u.value.id, Verdict(RegisterOf(d, g, t), u.value))] else []
  }

  /** An update touches the register of its own type only. */
  lemma MetaReceivedRegisters(d: Device, g: GroupId, t: MetaType, u: Option<Update>, s: MetaType)
    requires g in d.groups
    ensures var d1 := MetaReceived(d, g, t, u);
            && g in d1.groups && d1.groups.Keys == d.groups.Keys
            && d1 == d.(groups := d1.groups, clocks := d1.clocks)
            && d1.groups[g].members == d.groups[g].members
            && RegisterOf(d1, g, s) ==
               if s == t && u.Some? then Received(RegisterOf(d, g, t), u.value) else RegisterOf(d, g, s)
  {
  }

  ghost function MetadataReceived(d: Device, g: GroupId, cs: ChangeSet): Device
    requires g in d.groups
  {
    var d1 := MetaReceived(d, g, SetName, cs.name);
    var d2 := MetaReceived(d1, g, SetAvatar, cs.avatar);
    MetaReceived(d2, g, SetBurn, cs.burn)
  }

  ghost function MetadataAcks(d: Device, g: GroupId, cs: ChangeSet): seq<Ack>
    requires g in d.groups
  {
    MetaAcks(d, g, SetName, cs.name) + MetaAcks(d, g, SetAvatar, cs.avatar) + MetaAcks(d, g, SetBurn, cs.burn)
  }

  /** Whether an update is accepted does not depend on wait records and pending sets. */
  lemma MetadataAcksStable(d: Device, e: Device, g: GroupId, cs: ChangeSet)
    requires g in d.groups && e == d.(waits := e.waits, pending := e.pending)
    ensures MetadataAcks(e, g, cs) == MetadataAcks(d, g, cs)
  {
    forall t: MetaType
      ensures MetaAcks(e, g, t, cs.Meta(t)) == MetaAcks(d, g, t, cs.Meta(t))
    {
      assert RegisterOf(e, g, t) == RegisterOf(d, g, t);
    }
    assert cs.Meta(SetName) == cs.name && cs.Meta(SetAvatar) == cs.avatar && cs.Meta(SetBurn) == cs.burn;
  }

  function MembersAfter(members: set<UserId>, cs: ChangeSet): set<UserId> {
    (members + Elements(cs.AddNames())) - Elements(cs.RmNames())
  }

  predicate ChangesMembers(cs: ChangeSet) {
    cs.AddNames() != [] || cs.RmNames() != []
  }

  function MembersReceived(d: Device, g: GroupId, cs: ChangeSet): Device
    requires g in d.groups
  {
    d.(groups := d.groups[g := d.groups[g].(members := MembersAfter(d.groups[g].members, cs))])
  }

  function MemberAcks(cs: ChangeSet): seq<Ack> {
    if !ChangesMembers(cs) then [] else
    (if cs.add.Some? then [Ack(AddMember, cs.add.value.id, AcceptedOk)] else []) +
    (if cs.rm.Some? then [Ack(RemoveMember, cs.rm.value.id, AcceptedOk)] else [])
  }

  function BurnAcks(cs: ChangeSet): seq<Ack> {
    if cs.burnMessage.Some? then [Ack(BurnMessage, cs.burnMessage.value.id, ResultNone)] else []
  }

  /** A change set for a group the device has: the new state. */
  ghost function GroupUpdated(d: Device, g: GroupId, node: NodeId, cs: ChangeSet, now: int): Device
    requires g in d.groups
  {
    var d1 := if cs.acks != [] then ProcessedAcks(d, g, node, cs.acks, now) else d;
    AcksKeepGroups(d, g, node, cs.acks, now);
    var d2 := MetadataReceived(d1, g, cs);
    if ChangesMembers(cs) then MembersReceived(d2, g, cs) else d2
  }

  /** A change set for a group the device has: the ACKs to return. */
  ghost function AcksFor(d: Device, g: GroupId, cs: ChangeSet): seq<Ack>
    requires g in d.groups
  {
    MetadataAcks(d, g, cs) + BurnAcks(cs) + MemberAcks(cs)
  }

  /** ACK processing touches wait records and pending sets only. */
  lemma {:induction false} AcksKeepGroups(d: Device, g: GroupId, node: NodeId, acks: seq<Ack>, now: int)
    ensures var r := ProcessedAcks(d, g, node, acks, now); r == d.(waits := r.waits, pending := r.pending)
    decreases acks
  {
    AfterAcksKeepsGroups(d.(waits := Unexpired(d.waits, now - MK_STORE_TIME)), g, node, acks);
  }

  lemma {:induction false} AfterAcksKeepsGroups(d: Device, g: GroupId, node: NodeId, acks: seq<Ack>)
    ensures AfterAcks(d, g, node, acks) ==
            d.(waits := AfterAcks(d, g, node, acks).waits, pending := AfterAcks(d, g, node, acks).pending)
  {
    if acks != [] {
      AfterAcksKeepsGroups(d, g, node, acks[..|acks| - 1]);
    }
  }

  /** The user is gone from the group: no ACKs are awaited, clocks and pending sets of the group go with it. */
  function LeftGroup(d: Device, g: GroupId): Device {
    d.(waits := map k | k in d.waits && k.group != g :: d.waits[k],
       clocks := map k | k in d.clocks && k.0 != g :: d.clocks[k],
       pending := map k | k in d.pending && !IsKeyOf(k, g) :: d.pending[k],
       groups := d.groups - {g})
  }

  predicate IsKeyOf(key: string, g: GroupId) {
    |key| >= UPDATE_ID_LENGTH && key[UPDATE_ID_LENGTH..] == g
  }

  function NewGroup(user: UserId, cs: ChangeSet): Group {
    Group(if cs.name.Some? then cs.name.value.value else Text(""), Text(""), BurnTime(0, 0), {user})
  }

  function GroupInserted(d: Device, g: GroupId, cs: ChangeSet): Device {
    d.(groups := d.groups[g := NewGroup(d.user, cs)])
  }

  function RemoveRequest(user: UserId): ChangeSet {
    EMPTY_SET.(rm := Some(NameList("", [user])))
  }

  /** A list of at most 31 keys: the oldest makes room. */
  function Remembered(keys: seq<string>, key: string): seq<string> {
    (if |keys| > 30 then keys[1..] else keys) + [key]
  }

  predicate IsSiblingLeave(d: Device, g: GroupId, sender: UserId, cs: ChangeSet) {
    sender == d.user && g in d.groups && cs.RemovesOnly(d.user)
  }

  predicate CreatesGroup(d: Device, g: GroupId, cs: ChangeSet) {
    g !in d.groups && cs.AddNames() != []
  }

  /** An update for a group the device does not have, not yet answered, and not itself a request to remove this user. */
  predicate AsksForRemoval(d: Device, g: GroupId, deviceId: string, cs: ChangeSet) {
    && (cs.avatar.Some? || cs.burn.Some? || cs.name.Some? || cs.rm.Some?)
    && !cs.RemovesOnly(d.user)
    && g + deviceId !in d.sentRemoveTo
  }

  /** A received change set: the new state, and the set to send back (which may be empty). */
  ghost function ChangeSetReceived(d: Device, g: GroupId, sender: UserId, deviceId: string, cs: ChangeSet, now: int)
    : (Device, ChangeSet)
  {
    if IsSiblingLeave(d, g, sender, cs) then (LeftGroup(d, g), EMPTY_SET)
    else
      var d1 := if CreatesGroup(d, g, cs) then GroupInserted(d, g, cs) else d;
      if g in d1.groups then
        (GroupUpdated(d1, g, NodeOf(deviceId), cs, now), EMPTY_SET.(acks := AcksFor(d1, g, cs)))
      else if AsksForRemoval(d1, g, deviceId, cs) then
        (d1.(sentRemoveTo := Remembered(d1.sentRemoveTo, g + deviceId)), RemoveRequest(d1.user))
      else (d1, EMPTY_SET)
  }

  /** A group message, with or without a change set: the new state and the automatic reply, if any. */
  ghost function MessageReceived(d: Device, g: GroupId, sender: UserId, deviceId: string, cs: Option<ChangeSet>,
                                 now: int)
    : (Device, Option<ChangeSet>)
  {
    if cs.None? then (d, if g in d.groups then None else Some(RemoveRequest(d.user)))
    else
      var (d1, reply) := ChangeSetReceived(d, g, sender, deviceId, cs.value, now);
      (d1, if reply.acks != [] || reply.rm.Some? then Some(reply) else None)
  }

  // ---------- Editing the current change set ----------

  /** The set edits go to: the current one, or a new one if the device has the group. */
  function Editable(d: Device, g: GroupId): Option<ChangeSet> {
    if g in d.current then Some(d.current[g]) else if g in d.groups then Some(EMPTY_SET) else None
  }

  function WithCurrent(d: Device, g: GroupId, cs: ChangeSet): Device {
    d.(current := d.current[g := cs])
  }

  function AddName(cs: ChangeSet, name: UserId): ChangeSet {
    var l := cs.add.GetOr(NameList("", []));
    cs.(add := Some(l.(names := Appended(l.names, name))))
  }

  function RmName(cs: ChangeSet, name: UserId): ChangeSet {
    var l := cs.rm.GetOr(NameList("", []));
    cs.(rm := Some(l.(names := Appended(l.names, name))))
  }

  function UndoAdd(cs: ChangeSet, name: UserId): ChangeSet {
    if cs.add.None? then cs else cs.(add := Some(cs.add.value.(names := SwapRemoved(cs.add.value.names, name))))
  }

  function UndoRm(cs: ChangeSet, name: UserId): ChangeSet {
    if cs.rm.None? then cs else cs.(rm := Some(cs.rm.value.(names := SwapRemoved(cs.rm.value.names, name))))
  }

  function SetValue(cs: ChangeSet, t: MetaType, value: Option<Payload>): ChangeSet {
    if value.None? then cs.WithMeta(t, None)
    else cs.WithMeta(t, Some(cs.Meta(t).GetOr(Update("", map[], value.value)).(value := value.value)))
  }

  function BurnMessages(cs: ChangeSet, msgIds: seq<string>, user: UserId): ChangeSet {
    var l := cs.burnMessage.GetOr(BurnList("", [], ""));
    cs.(burnMessage := Some(l.(msgIds := l.msgIds + msgIds, member := user)))
  }

  datatype Edit = AddUser(user: UserId) | RemoveUser(user: UserId, allowOwn: bool) | UndoAddUser(user: UserId)
    | UndoRemoveUser(user: UserId) | SetMeta(t: MetaType, value: Option<Payload>)
    | BurnGroupMessages(msgIds: seq<string>)

  /** Adding a name cancels its removal, and the other way round. */
  function EditSet(cs: ChangeSet, e: Edit, own: UserId): ChangeSet {
    match e
    case AddUser(u) => AddName(UndoRm(cs, u), u)
    case RemoveUser(u, _) => RmName(UndoAdd(cs, u), u)
    case UndoAddUser(u) => UndoAdd(cs, u)
    case UndoRemoveUser(u) => UndoRm(cs, u)
    case SetMeta(t, value) => SetValue(cs, t, value)
    case BurnGroupMessages(ids) => BurnMessages(cs, ids, own)
  }

  /** What the argument checks of an edit say; the group is looked up last. */
  function ArgumentCode(g: GroupId, e: Edit, own: UserId): Code {
    match e
    case AddUser(u) => if g == "" || u == "" then DataMissing else if u == own then IllegalArgument else Success
    case RemoveUser(u, allowOwn) =>
      if g == "" || u == "" then DataMissing else if !allowOwn && u == own then IllegalArgument else Success
    case UndoAddUser(u) => if g == "" || u == "" then DataMissing else Success
    case UndoRemoveUser(u) => if g == "" || u == "" then DataMissing else Success
    case SetMeta(t, value) =>
      if g == "" then DataMissing
      else if t == SetBurn && !(value.Some? && value.value.BurnTime? && value.value.mode == BURN_FROM_SEND_RETROACTIVE)
      then IllegalArgument else Success
    case BurnGroupMessages(ids) => if g == "" || ids == [] then DataMissing else Success
  }

  function EditCode(d: Device, g: GroupId, e: Edit): Code {
    if ArgumentCode(g, e, d.user) != Success then ArgumentCode(g, e, d.user)
    else if Editable(d, g).None? then NoSuchActiveGroup else Success
  }

  function Edited(d: Device, g: GroupId, e: Edit): Device {
    if EditCode(d, g, e) == Success then WithCurrent(d, g, EditSet(Editable(d, g).value, e, d.user)) else d
  }

  function Cancelled(d: Device, g: GroupId): Device {
    if g == "" then d else d.(current := d.current - {g})
  }

  /** A new group exists as a change set only, with its creator as the first member to add. */
  function GroupCreated(d: Device, g: GroupId, name: string): Device {
    var d1 := if g in d.current then d else WithCurrent(d, g, EMPTY_SET);
    var cs := AddName(UndoRm(d1.current[g], d.user), d.user);
    WithCurrent(d1, g, if name == "" then cs else SetValue(cs, SetName, Some(Text(name))))
  }

  // ---------- Sending ----------

  /** Stamps one clocked update of the set: counts up the local clock, stores clock and value. */
  function Stamped(d: Device, g: GroupId, t: MetaType, cs: ChangeSet): (Device, ChangeSet)
    requires g in d.groups
  {
    if cs.Meta(t).None? then (d, cs)
    else
      var reg := Sent(RegisterOf(d, g, t), cs.Meta(t).value.value, d.node, d.updateId);
      (WithRegister(d, g, t, reg), cs.WithMeta(t, Some(Update(d.updateId, reg.Clock(), reg.value))))
  }

  /** The stored group data; queries for a group that is gone answer with defaults. */
  function Stored(d: Device, g: GroupId): Group {
    if g in d.groups then d.groups[g] else Group(Text(""), Text(""), BurnTime(0, 0), {})
  }

  /** A new member must learn the metadata: missing updates repeat the stored value and clock under this send's id. */
  function Completed(d: Device, g: GroupId, cs: ChangeSet): ChangeSet {
    cs.(name := Some(cs.name.GetOr(Repeated(d, g, SetName))),
        avatar := Some(cs.avatar.GetOr(Repeated(d, g, SetAvatar))),
        burn := Some(cs.burn.GetOr(Repeated(d, g, SetBurn))))
  }

  function Repeated(d: Device, g: GroupId, t: MetaType): Update {
    Update(d.updateId, Register(Stored(d, g).Meta(t), Local(d, g, t)).Clock(), Stored(d, g).Meta(t))
  }

  function MembersAdded(d: Device, g: GroupId, names: set<UserId>): Device
    requires g in d.groups
  {
    d.(groups := d.groups[g := d.groups[g].(members := d.groups[g].members + names)])
  }

  function MembersRemoved(d: Device, g: GroupId, names: set<UserId>): Device
    requires g in d.groups
  {
    d.(groups := d.groups[g := d.groups[g].(members := d.groups[g].members - names)])
  }

  /** Adds the names to the member table, and metadata and all members (rows, as the store lists them) to the set. */
  function AddsPrepared(d: Device, g: GroupId, cs: ChangeSet, rows: seq<UserId>): (Device, ChangeSet)
    requires g in d.groups
  {
    if cs.add.None? then (d, cs)
    else
      var d1 := MembersAdded(d, g, Elements(cs.AddNames()));
      var cs1 := Completed(d1, g, cs.(add := Some(cs.add.value.(id := d.updateId))));
      (d1, cs1.(add := Some(NameList(d.updateId, AppendedAll(cs.AddNames(), rows)))))
  }

  /** The sender's own entry stays: leaving the group is a separate operation. */
  function RemovesPrepared(d: Device, g: GroupId, cs: ChangeSet): (Device, ChangeSet)
    requires g in d.groups
  {
    if cs.rm.None? then (d, cs)
    else
      (MembersRemoved(d, g, Elements(cs.RmNames()) - {d.user}), cs.(rm := Some(cs.rm.value.(id := d.updateId))))
  }

  function BurnPrepared(d: Device, cs: ChangeSet): ChangeSet {
    if cs.burnMessage.None? then cs else cs.(burnMessage := Some(cs.burnMessage.value.(id := d.updateId)))
  }

  function StampedAll(d: Device, g: GroupId, cs: ChangeSet): (Device, ChangeSet)
    requires g in d.groups
  {
    var (d1, cs1) := Stamped(d, g, SetName, cs);
    var (d2, cs2) := Stamped(d1, g, SetAvatar, cs1);
    Stamped(d2, g, SetBurn, cs2)
  }

  /** The state in which a send of the current set begins: the group exists and the send owns the fresh id. */
  function SendBegun(d: Device, g: GroupId, freshId: UpdateId): Device
    requires g in d.current
  {
    var d1 := d.(updateInProgress := true, updateId := freshId);
    if g in d.groups then d1 else GroupInserted(d1, g, d.current[g])
  }

  /** The members the device starts from; a group it does not have is created with its own user. */
  function StartingMembers(d: Device, g: GroupId): set<UserId> {
    if g in d.groups then d.groups[g].members else {d.user}
  }

  predicate StartsSend(d: Device, g: GroupId) {
    g != "" && g in d.current && !d.updateInProgress
  }

  function SendPrepared(d: Device, g: GroupId, freshId: UpdateId, rows: seq<UserId>): (p: Device)
    ensures StartsSend(d, g) ==> g in p.current
  {
    if !StartsSend(d, g) then d
    else
      var d0 := SendBegun(d, g, freshId);
      var (d1, cs1) := StampedAll(d0, g, d.current[g]);
      var (d2, cs2) := AddsPrepared(d1, g, BurnPrepared(d1, cs1), rows);
      var (d3, cs3) := RemovesPrepared(d2, g, cs2);
      WithCurrent(d3, g, cs3)
  }

  function SendPreparedCode(d: Device, g: GroupId): Code {
    if g == "" then DataMissing
    else if g in d.current && d.updateInProgress then GroupUpdateRunning
    else Success
  }

  /** Rows as the store may list them: every member once. */
  predicate Lists(rows: seq<UserId>, members: set<UserId>) {
    Distinct(rows) && Elements(rows) == members
  }

  /** The key of the group's pending change set, if it has one. */
  ghost function PendingKey(d: Device, g: GroupId): Option<string> {
    if exists k <- d.pending :: IsKeyOf(k, g) then
      var k :| k in d.pending && IsKeyOf(k, g); Some(k)
    else None
  }

  /** Moves the unacknowledged member names of the group's pending set into the set being sent. */
  ghost function Collapsed(d: Device, g: GroupId, node: NodeId, cs: ChangeSet): (Device, ChangeSet) {
    var key := PendingKey(d, g);
    if key.None? then (d, cs)
    else
      var earlier, earlierId := d.pending[key.value], key.value[..UPDATE_ID_LENGTH];
      var (d1, cs1) := CollapsedAdds(d, WaitKey(g, node, earlierId, AddMember), earlier.AddNames(), cs);
      CollapsedRms(d1, WaitKey(g, node, earlierId, RemoveMember), earlier.RmNames(), cs1)
  }

  function CollapsedAdds(d: Device, wait: WaitKey, names: seq<UserId>, cs: ChangeSet): (Device, ChangeSet) {
    if wait !in d.waits || names == [] then (d, cs)
    else
      var l := cs.add.GetOr(NameList("", []));
      (d.(waits := d.waits - {wait}), cs.(add := Some(l.(names := AppendedAll(l.names, names)))))
  }

  function CollapsedRms(d: Device, wait: WaitKey, names: seq<UserId>, cs: ChangeSet): (Device, ChangeSet) {
    if wait !in d.waits || names == [] then (d, cs)
    else
      var l := cs.rm.GetOr(NameList("", []));
      (d.(waits := d.waits - {wait}), cs.(rm := Some(l.(names := AppendedAll(l.names, names)))))
  }

  /** Inserting a key that is present fails, and keeps the old time. */
  function WaitInserted(waits: map<WaitKey, int>, key: WaitKey, now: int): map<WaitKey, int> {
    if key in waits then waits else waits[key := now]
  }

  /** A newer update of a clocked type replaces whatever the device was still to acknowledge of that type. */
  function WaitReplaced(waits: map<WaitKey, int>, key: WaitKey, now: int): map<WaitKey, int> {
    (map k | k in waits && !(k.group == key.group && k.node == key.node && k.typ == key.typ) :: waits[k])[key := now]
  }

  function MetaWaitsRecorded(waits: map<WaitKey, int>, g: GroupId, node: NodeId, id: UpdateId, cs: ChangeSet, now: int)
    : map<WaitKey, int>
  {
    var w1 := if cs.name.Some? then WaitReplaced(waits, WaitKey(g, node, id, SetName), now) else waits;
    var w2 := if cs.avatar.Some? then WaitReplaced(w1, WaitKey(g, node, id, SetAvatar), now) else w1;
    if cs.burn.Some? then WaitReplaced(w2, WaitKey(g, node, id, SetBurn), now) else w2
  }

  function WaitsRecorded(waits: map<WaitKey, int>, g: GroupId, node: NodeId, id: UpdateId, cs: ChangeSet, now: int)
    : map<WaitKey, int>
  {
    var w1 := MetaWaitsRecorded(waits, g, node, id, cs, now);
    var w2 := if cs.burnMessage.Some? then WaitInserted(w1, WaitKey(g, node, id, BurnMessage), now) else w1;
    var w3 := if cs.add.Some? then WaitInserted(w2, WaitKey(g, node, id, AddMember), now) else w2;
    if cs.rm.Some? then WaitInserted(w3, WaitKey(g, node, id, RemoveMember), now) else w3
  }

  /** The branch of createChangeSetDevice that builds a device's set during a send. */
  predicate SendsTo(d: Device, g: GroupId, deviceId: string, hasSet: bool) {
    g != "" && deviceId != "" && !hasSet && d.updateInProgress && g in d.current && d.current[g].HasUpdates()
  }

  /** All other branches change nothing. A set without updates is to be dropped, but under a lock already held. */
  ghost function WithoutSend(d: Device, g: GroupId, deviceId: string, hasSet: bool): (Code, Option<ChangeSet>) {
    if g == "" || deviceId == "" then (DataMissing, None)
    else if hasSet then (Success, None)
    else if d.updateInProgress then (if g in d.current then SelfDeadlock else GroupUpdateInconsistent, None)
    else
      var key := PendingKey(d, g);
      // The query compares the update id column with the textual device id.
      (Success, if key.Some? && Waiting(d.waits, g, deviceId) then Some(d.pending[key.value]) else None)
  }

  /** Every key starts with an update id, and no two keys end with the same group id. */
  ghost predicate PendingUnique(d: Device) {
    && (forall k <- d.pending :: |k| >= UPDATE_ID_LENGTH)
    && (forall k <- d.pending, l <- d.pending :: k[UPDATE_ID_LENGTH..] == l[UPDATE_ID_LENGTH..] ==> k == l)
  }

  /** The new state and the set serialized for the device. */
  ghost function SetForDevice(d: Device, g: GroupId, deviceId: string, now: int): (Device, ChangeSet)
    requires g in d.current
  {
    var node := NodeOf(deviceId);
    var (d1, cs1) := Collapsed(d, g, node, d.current[g]);
    var cs2 := if cs1.add.Some? then Completed(d1, g, cs1) else cs1;
    (WithCurrent(d1.(waits := WaitsRecorded(d1.waits, g, node, d.updateId, cs2, now)), g, cs2), cs2)
  }

  /** After the last device: the current set becomes the group's only pending set. */
  function SendFinished(d: Device, g: GroupId): Device {
    if !d.updateInProgress then d
    else
      var key := d.updateId + g;
      var others := map k | k in d.pending && (k == key || !IsKeyOf(k, g)) :: d.pending[k];
      var d1 := d.(updateId := seq(UPDATE_ID_LENGTH, _ => '\0'), pending := others);
      if g !in d.current then d1
      else
        d1.(pending := if key in others then others else others[key := d.current[g]],
            current := d.current - {g},
            updateInProgress := false)
  }

  lemma OnlyPendingKey(d: Device, g: GroupId, k: string)
    requires PendingUnique(d) && k in d.pending && IsKeyOf(k, g)
    ensures PendingKey(d, g) == Some(k)
  {
  }
}
