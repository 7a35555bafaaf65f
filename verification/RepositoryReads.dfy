/** What the repository answers after any run of operations: for each key the last write that took effect. */
module RepositoryReads {
  import opened Wrappers
  import opened AppRepository

  // ---------- One operation ----------

  /** Which operations are refused: inserts without their parent row, and deletes of a parent that has children. */
  predicate IsRefused(t: Tables, op: Operation) {
    match op
    case DeleteConversation(name) => HasEvents(t, name)
    case InsertEvent(name, _, _) => name !in t.conversations
    case DeleteEvent(name, eventId) => HasObjects(t, EventKey(eventId, name))
    case DeleteEventName(name) => exists k <- t.events :: k.convName == name && HasObjects(t, k)
    case InsertObject(name, eventId, objectId, _) =>
      || EventKey(eventId, name) !in t.events
    case _ => false
  }

  lemma OperationFailsExactlyWhen(t: Tables, op: Operation)
    requires Sound(t)
    ensures Step(t, op).1 == if IsRefused(t, op) then Constraint else Done
    ensures IsRefused(t, op) ==> Step(t, op).0 == t
  {
    match op {
      case InsertEvent(name, eventId, data) =>
        InsertOutcome(t, name, eventId, data);
      case DeleteConversation(name) =>
        ConversationGoesExactlyWhen(t, name);
      case DeleteEvent(name, eventId) =>
        EventGoesExactlyWhen(t, name, eventId);
      case DeleteEventName(name) =>
        EventsGoExactlyWhen(t, name);
      case InsertObject(name, eventId, objectId, data) =>
        ObjectNeedsEvent(t, name, eventId, objectId, data);
      case StoreConversation(name, data) =>
        StoreOutcome(t, name, data);
      case _ =>
        OthersAreDone(t, op);
    }
  }

  lemma OthersAreDone(t: Tables, op: Operation)
    requires Sound(t)
    requires op.UpdateEvent? || op.DeleteObject? || op.DeleteObjectMsg? || op.DeleteObjectName?
    ensures Step(t, op).1 == Done
  {
  }

  lemma ObjectNeedsEvent(t: Tables, name: string, eventId: string, objectId: string, data: string)
    requires Sound(t)
    ensures var (u, code) := ObjectInserted(t, name, eventId, objectId, data);
            if EventKey(eventId, name) in t.events
            then code == Done && u == t.(objects := t.objects[ObjectKey(objectId, eventId) := StoredObject(name, data)])
            else code == Constraint && u == t
  {
    var o, row := ObjectKey(objectId, eventId), StoredObject(name, data);
    var after := t.(objects := t.objects[o := row]);
    assert o in after.objects && after.objects[o] == row;
  }

  function ConversationOf(t: Tables, name: string): Option<Conversation> {
    if name in t.conversations then Some(t.conversations[name]) else None
  }

  function EventOf(t: Tables, k: EventKey): Option<Event> {
    if k in t.events then Some(t.events[k]) else None
  }

  function ObjectOf(t: Tables, o: ObjectKey): Option<StoredObject> {
    if o in t.objects then Some(t.objects[o]) else None
  }

  /** A conversation's data after an operation, told from its data before. */
  function ConversationData(before: Option<string>, op: Operation, name: string): Option<string> {
    if op.StoreConversation? && op.name == name then Some(op.data)
    else if op == DeleteConversation(name) then None
    else before
  }

  function EventData(before: Option<string>, op: Operation, k: EventKey): Option<string> {
    match op
    case InsertEvent(name, eventId, data) => if k == EventKey(eventId, name) then Some(data) else before
    case UpdateEvent(name, eventId, data) =>
      if k == EventKey(eventId, name) && before.Some? then Some(data) else before
    case DeleteEvent(name, eventId) => if k == EventKey(eventId, name) then None else before
    case DeleteEventName(name) => if k.convName == name then None else before
    case _ => before
  }

  function ObjectRow(before: Option<StoredObject>, op: Operation, o: ObjectKey): Option<StoredObject> {
    match op
    case InsertObject(name, eventId, objectId, data) =>
      if o == ObjectKey(objectId, eventId) then Some(StoredObject(name, data)) else before
    case DeleteObject(name, eventId, objectId) =>
      if o == ObjectKey(objectId, eventId) && IsIn(before, name) then None else before
    case DeleteObjectMsg(name, eventId) => if o.event == eventId && IsIn(before, name) then None else before
    case DeleteObjectName(name) => if IsIn(before, name) then None else before
    case _ => before
  }

  /** The object's row names the conversation. */
  predicate IsIn(row: Option<StoredObject>, name: string) {
    row.Some? && row.value.conv == name
  }

  function DataOf(c: Option<Conversation>): Option<string> {
    if c.Some? then Some(c.value.data) else None
  }

  function EventDataOf(e: Option<Event>): Option<string> {
    if e.Some? then Some(e.value.data) else None
  }

  /** Storing gives the conversation exactly the data, keeps its next number (1 if new), and touches nothing else. */
  lemma StoreOutcome(t: Tables, name: string, data: string)
    requires Sound(t)
    ensures var (u, code) := ConversationStored(t, name, data);
            && code == Done && u.conversations.Keys == t.conversations.Keys + {name}
            && u.conversations[name].data == data
            && u.conversations[name].nextMsgNumber == (if name in t.conversations then NextNumber(t, name) else 1)
            && (forall c <- t.conversations :: c != name ==> u.conversations[c] == t.conversations[c])
            && u.events == t.events && u.objects == t.objects
  {
  }

  lemma StepReads(t: Tables, op: Operation, name: string, k: EventKey, o: ObjectKey)
    requires Sound(t)
    ensures var u, effective := Step(t, op).0, !IsRefused(t, op);
            && DataOf(ConversationOf(u, name)) ==
               (if effective then ConversationData(DataOf(ConversationOf(t, name)), op, name)
                else DataOf(ConversationOf(t, name)))
            && EventDataOf(EventOf(u, k)) ==
               (if effective then EventData(EventDataOf(EventOf(t, k)), op, k) else EventDataOf(EventOf(t, k)))
            && ObjectOf(u, o) == if effective then ObjectRow(ObjectOf(t, o), op, o) else ObjectOf(t, o)
  {
    OperationFailsExactlyWhen(t, op);
    if !IsRefused(t, op) {
      ConversationReads(t, op, name);
      EventReads(t, op, k);
      ObjectReads(t, op, o);
    }
  }

  lemma ConversationReads(t: Tables, op: Operation, name: string)
    requires Sound(t) && !IsRefused(t, op)
    ensures DataOf(ConversationOf(Step(t, op).0, name)) == ConversationData(DataOf(ConversationOf(t, name)), op, name)
  {
    match op {
      case StoreConversation(c, data) =>
        StoreOutcome(t, c, data);
      case InsertEvent(c, eventId, data) =>
        InsertOutcome(t, c, eventId, data);
      case DeleteConversation(c) =>
        ConversationGoesExactlyWhen(t, c);
        assert Step(t, op).0 == t.(conversations := t.conversations - {c});
      case _ =>
        OthersKeepConversations(t, op);
    }
  }

  lemma OthersKeepConversations(t: Tables, op: Operation)
    requires !op.StoreConversation? && !op.DeleteConversation? && !op.InsertEvent?
    ensures Step(t, op).0.conversations == t.conversations
  {
  }

  lemma EventReads(t: Tables, op: Operation, k: EventKey)
    requires Sound(t) && !IsRefused(t, op)
    ensures EventDataOf(EventOf(Step(t, op).0, k)) == EventData(EventDataOf(EventOf(t, k)), op, k)
  {
    match op {
      case UpdateEvent(c, eventId, data) =>
      case InsertEvent(c, eventId, data) =>
        InsertOutcome(t, c, eventId, data);
      case DeleteEvent(c, eventId) =>
        EventGoesExactlyWhen(t, c, eventId);
      case DeleteEventName(c) =>
        EventsGoExactlyWhen(t, c);
      case _ =>
        OthersKeepEvents(t, op);
    }
  }

  lemma OthersKeepEvents(t: Tables, op: Operation)
    requires !op.InsertEvent? && !op.UpdateEvent? && !op.DeleteEvent? && !op.DeleteEventName?
    ensures Step(t, op).0.events == t.events
  {
  }

  lemma ObjectReads(t: Tables, op: Operation, o: ObjectKey)
    requires Sound(t) && !IsRefused(t, op) && Step(t, op).1 == Done
    ensures ObjectOf(Step(t, op).0, o) == ObjectRow(ObjectOf(t, o), op, o)
  {
    match op {
      case InsertObject(c, eventId, objectId, data) =>
        ObjectNeedsEvent(t, c, eventId, objectId, data);
      case DeleteObject(_, _, _) =>
      case DeleteObjectMsg(_, _) =>
      case DeleteObjectName(_) =>
      case _ =>
        OthersKeepObjects(t, op);
    }
  }

  lemma OthersKeepObjects(t: Tables, op: Operation)
    requires !IsObjectOperation(op)
    ensures Step(t, op).0.objects == t.objects
  {
  }

  // ---------- Runs ----------

  /** The operations of a run that were not refused. */
  function Effective(t: Tables, ops: seq<Operation>): seq<Operation>
    decreases ops
  {
    if ops == [] then []
    else (if IsRefused(t, ops[0]) then [] else [ops[0]]) + Effective(Step(t, ops[0]).0, ops[1..])
  }

  /** The last effective write decides; reading needs no tables. */
  function LastConversation(before: Option<string>, ops: seq<Operation>, name: string): Option<string>
    decreases ops
  {
    if ops == [] then before else LastConversation(ConversationData(before, ops[0], name), ops[1..], name)
  }

  function LastEvent(before: Option<string>, ops: seq<Operation>, k: EventKey): Option<string>
    decreases ops
  {
    if ops == [] then before else LastEvent(EventData(before, ops[0], k), ops[1..], k)
  }

  function LastObject(before: Option<StoredObject>, ops: seq<Operation>, o: ObjectKey): Option<StoredObject>
    decreases ops
  {
    if ops == [] then before else LastObject(ObjectRow(before, ops[0], o), ops[1..], o)
  }

  /**
   * Reads follow writes. After any run the stored data of every conversation and event, and the row of every object,
   * is what the operations that were not refused last wrote under its key, or nothing once they deleted it.
   */
  lemma {:induction false} ReadsFollowWrites(t: Tables, ops: seq<Operation>, name: string, k: EventKey, o: ObjectKey)
    requires Sound(t)
    ensures var u, done := Run(t, ops), Effective(t, ops);
            && DataOf(ConversationOf(u, name)) == LastConversation(DataOf(ConversationOf(t, name)), done, name)
            && EventDataOf(EventOf(u, k)) == LastEvent(EventDataOf(EventOf(t, k)), done, k)
            && ObjectOf(u, o) == LastObject(ObjectOf(t, o), done, o)
    decreases ops
  {
    if ops != [] {
      var next := Step(t, ops[0]).0;
      StepKeepsSound(t, ops[0]);
      StepReads(t, ops[0], name, k, o);
      ReadsFollowWrites(next, ops[1..], name, k, o);
      if IsRefused(t, ops[0]) {
        assert [] + Effective(next, ops[1..]) == Effective(next, ops[1..]);
      } else {
        assert ([ops[0]] + Effective(next, ops[1..]))[1..] == Effective(next, ops[1..]);
      }
    }
  }

  /** In particular a conversation has the data of its last store, as long as it was not deleted after it. */
  lemma LastStoreIsRead(t: Tables, ops: seq<Operation>, i: nat, name: string)
    requires Sound(t) && i < |ops| && ops[i].StoreConversation? && ops[i].name == name
    requires forall op <- Effective(Run(t, ops[..i + 1]), ops[i + 1..]) ::
               op != DeleteConversation(name) && !(op.StoreConversation? && op.name == name)
    ensures name in Run(t, ops).conversations && Run(t, ops).conversations[name].data == ops[i].data
  {
    var before := Run(t, ops[..i]);
    RunIsSound(t, ops[..i]);
    RunIsSound(t, ops[..i + 1]);
    RunJoins(t, ops[..i], [ops[i]]);
    RunJoins(t, ops[..i + 1], ops[i + 1..]);
    assert ops[..i + 1] == ops[..i] + [ops[i]] && ops == ops[..i + 1] + ops[i + 1..] && [ops[i]][1..] == [];
    StoreOutcome(before, name, ops[i].data);
    ReadsFollowWrites(Run(t, ops[..i + 1]), ops[i + 1..], name, EventKey("", name), ObjectKey("", ""));
    UntouchedStays(Some(ops[i].data), Effective(Run(t, ops[..i + 1]), ops[i + 1..]), name);
  }

  lemma {:induction false} RunJoins(t: Tables, ops: seq<Operation>, more: seq<Operation>)
    ensures Run(t, ops + more) == Run(Run(t, ops), more)
    decreases ops
  {
    if ops == [] {
      assert ops + more == more;
    } else {
      assert (ops + more)[1..] == ops[1..] + more;
      RunJoins(Step(t, ops[0]).0, ops[1..], more);
    }
  }

  lemma {:induction false} UntouchedStays(before: Option<string>, ops: seq<Operation>, name: string)
    requires forall op <- ops :: op != DeleteConversation(name) && !(op.StoreConversation? && op.name == name)
    ensures LastConversation(before, ops, name) == before
    decreases ops
  {
    if ops != [] {
      assert ops[0] in ops;
      UntouchedStays(before, ops[1..], name);
    }
  }
}
