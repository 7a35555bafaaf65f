/** The conversation, event and object tables of the app repository, as the SQL statements and foreign keys see them. */
module AppRepository {
  import opened Wrappers

  datatype Conversation = Conversation(nextMsgNumber: int, data: string)
  datatype EventKey = EventKey(eventId: string, convName: string)
  datatype Event = Event(msgNumber: int, data: string)
  datatype ObjectKey = ObjectKey(objectId: string, event: string)
  datatype StoredObject = StoredObject(conv: string, data: string)

  /** Each table is a map from its primary key. */
  datatype Tables = Tables(
    conversations: map<string, Conversation>,
    events: map<EventKey, Event>,
    objects: map<ObjectKey, StoredObject>)

  datatype SqlCode = Done | Row | Constraint

  const EMPTY := Tables(map[], map[], map[])

  // ---------- Statements ----------

  /** The two foreign keys: an event's conversation and an object's event exist. */
  predicate KeysRefer(t: Tables) {
    && (forall k <- t.events :: k.convName in t.conversations)
    && (forall o <- t.objects :: EventKey(o.event, t.objects[o].conv) in t.events)
  }

  /** A statement whose effect breaks a foreign key is refused and has no effect. */
  function Executed(t: Tables, after: Tables): (Tables, SqlCode) {
    if KeysRefer(after) then (after, Done) else (t, Constraint)
  }

  // ---------- Operations ----------

  function ConversationStored(t: Tables, name: string, data: string): (Tables, SqlCode) {
    var t1 := if name in t.conversations
              then t.(conversations := t.conversations[name := t.conversations[name].(data := data)]) else t;
    Executed(t1, if name in t1.conversations then t1
                 else t1.(conversations := t1.conversations[name := Conversation(1, data)]))
  }

  function ConversationDeleted(t: Tables, name: string): (Tables, SqlCode) {
    Executed(t, t.(conversations := t.conversations - {name}))
  }

  /** The number for a new event; the conversation's counter moves on. */
  function NumberTaken(t: Tables, name: string): (Tables, int) {
    if name !in t.conversations then (t, -1)
    else
      var n := t.conversations[name].nextMsgNumber;
      (t.(conversations := t.conversations[name := t.conversations[name].(nextMsgNumber := n + 1)]), n)
  }

  function EventUpdated(t: Tables, name: string, eventId: string, data: string): (Tables, SqlCode) {
    var k := EventKey(eventId, name);
    Executed(t, if k in t.events then t.(events := t.events[k := t.events[k].(data := data)]) else t)
  }

  function EventInserted(t: Tables, name: string, eventId: string, data: string): (Tables, SqlCode) {
    var k := EventKey(eventId, name);
    if k in t.events then EventUpdated(t, name, eventId, data)
    else
      var (t1, n) := NumberTaken(t, name);
      var (t2, code) := Executed(t1, t1.(events := t1.events[k := Event(n, data)]));
      (if code == Done then t2 else t, code)
  }

  function EventDeleted(t: Tables, name: string, eventId: string): (Tables, SqlCode) {
    Executed(t, t.(events := t.events - {EventKey(eventId, name)}))
  }

  function EventsDeleted(t: Tables, name: string): (Tables, SqlCode) {
    Executed(t, t.(events := map k <- t.events | k.convName != name :: t.events[k]))
  }

  function ObjectInserted(t: Tables, name: string, eventId: string, objectId: string, data: string): (Tables, SqlCode) {
    Executed(t, t.(objects := t.objects[ObjectKey(objectId, eventId) := StoredObject(name, data)]))
  }

  function ObjectDeleted(t: Tables, name: string, eventId: string, objectId: string): (Tables, SqlCode) {
    var o := ObjectKey(objectId, eventId);
    Executed(t, if o in t.objects && t.objects[o].conv == name then t.(objects := t.objects - {o}) else t)
  }

  function EventObjectsDeleted(t: Tables, name: string, eventId: string): (Tables, SqlCode) {
    Executed(t, t.(objects := map o <- t.objects | !(o.event == eventId && t.objects[o].conv == name) :: t.objects[o]))
  }

  function ObjectsDeleted(t: Tables, name: string): (Tables, SqlCode) {
    Executed(t, t.(objects := map o <- t.objects | t.objects[o].conv != name :: t.objects[o]))
  }

  // ---------- Runs ----------

  datatype Operation =
    | StoreConversation(name: string, data: string)
    | DeleteConversation(name: string)
    | InsertEvent(name: string, eventId: string, data: string)
    | UpdateEvent(name: string, eventId: string, data: string)
    | DeleteEvent(name: string, eventId: string)
    | DeleteEventName(name: string)
    | InsertObject(name: string, eventId: string, objectId: string, data: string)
    | DeleteObject(name: string, eventId: string, objectId: string)
    | DeleteObjectMsg(name: string, eventId: string)
    | DeleteObjectName(name: string)

  function Step(t: Tables, op: Operation): (Tables, SqlCode) {
    match op
    case StoreConversation(name, data) => ConversationStored(t, name, data)
    case DeleteConversation(name) => ConversationDeleted(t, name)
    case InsertEvent(name, eventId, data) => EventInserted(t, name, eventId, data)
    case UpdateEvent(name, eventId, data) => EventUpdated(t, name, eventId, data)
    case DeleteEvent(name, eventId) => EventDeleted(t, name, eventId)
    case DeleteEventName(name) => EventsDeleted(t, name)
    case InsertObject(name, eventId, objectId, data) => ObjectInserted(t, name, eventId, objectId, data)
    case DeleteObject(name, eventId, objectId) => ObjectDeleted(t, name, eventId, objectId)
    case DeleteObjectMsg(name, eventId) => EventObjectsDeleted(t, name, eventId)
    case DeleteObjectName(name) => ObjectsDeleted(t, name)
  }

  function Run(t: Tables, ops: seq<Operation>): Tables
    decreases ops
  {
    if ops == [] then t else Run(Step(t, ops[0]).0, ops[1..])
  }

  /** Zero stands for a conversation that does not exist. */
  function NextNumber(t: Tables, name: string): int {
    if name in t.conversations then t.conversations[name].nextMsgNumber else 0
  }

  predicate NumbersBelowNext(t: Tables) {
    && (forall c <- t.conversations :: 1 <= t.conversations[c].nextMsgNumber)
    && (forall k <- t.events :: 1 <= t.events[k].msgNumber < NextNumber(t, k.convName))
  }

  predicate NumbersDistinct(t: Tables) {
    forall j, k :: j in t.events && k in t.events && j.convName == k.convName && j != k ==>
                     t.events[j].msgNumber != t.events[k].msgNumber
  }

  predicate Sound(t: Tables) {
    KeysRefer(t) && NumbersBelowNext(t) && NumbersDistinct(t)
  }

  /** No event is new, and those left keep their number below their conversation's next one. */
  predicate Narrows(t: Tables, u: Tables) {
    && (forall c <- u.conversations :: 1 <= u.conversations[c].nextMsgNumber)
    && (forall k <- u.events :: k in t.events && u.events[k].msgNumber == t.events[k].msgNumber)
    && (forall k <- u.events :: NextNumber(t, k.convName) <= NextNumber(u, k.convName))
  }

  lemma NarrowingKeepsSound(t: Tables, u: Tables)
    requires Sound(t) && Narrows(t, u) && KeysRefer(u)
    ensures Sound(u)
  {
  }

  lemma StatementKeepsSound(t: Tables, after: Tables)
    requires Sound(t) && (KeysRefer(after) ==> Narrows(t, after))
    ensures Sound(Executed(t, after).0)
  {
  }

  lemma InsertKeepsSound(t: Tables, name: string, eventId: string, data: string)
    requires Sound(t) && EventKey(eventId, name) !in t.events
    ensures Sound(EventInserted(t, name, eventId, data).0)
    ensures name !in t.conversations ==> EventInserted(t, name, eventId, data) == (t, Constraint)
  {
    var k := EventKey(eventId, name);
    var (t1, n) := NumberTaken(t, name);
    var t2 := t1.(events := t1.events[k := Event(n, data)]);
    if name in t.conversations {
      NarrowingKeepsSound(t, t1);
      NewNumberIsDistinct(t1, k, Event(n, data));
    } else {
      assert k in t2.events && k.convName !in t2.conversations;
    }
  }

  lemma NewNumberIsDistinct(t: Tables, k: EventKey, e: Event)
    requires NumbersDistinct(t) && k !in t.events
    requires forall j <- t.events :: j.convName == k.convName ==> t.events[j].msgNumber != e.msgNumber
    ensures NumbersDistinct(t.(events := t.events[k := e]))
  {
  }

  lemma StepKeepsSound(t: Tables, op: Operation)
    requires Sound(t)
    ensures Sound(Step(t, op).0)
  {
    match op
    case StoreConversation(name, data) =>
      var row := if name in t.conversations then t.conversations[name].(data := data) else Conversation(1, data);
      StoringKeepsSound(t, name, row);
    case DeleteConversation(name) => ConversationDeletionKeepsSound(t, name);
    case InsertEvent(name, eventId, data) =>
      if EventKey(eventId, name) in t.events {
        UpdateKeepsSound(t, name, eventId, data);
      } else {
        InsertKeepsSound(t, name, eventId, data);
      }
    case UpdateEvent(name, eventId, data) => UpdateKeepsSound(t, name, eventId, data);
    case DeleteEvent(name, eventId) => EventDeletionKeepsSound(t, name, eventId);
    case DeleteEventName(name) => EventsDeletionKeepsSound(t, name);
    case InsertObject(_, _, _, _) => ObjectsKeepSound(t, op);
    case DeleteObject(_, _, _) => ObjectsKeepSound(t, op);
    case DeleteObjectMsg(_, _) => ObjectsKeepSound(t, op);
    case DeleteObjectName(_) => ObjectsKeepSound(t, op);
  }

  lemma StoringKeepsSound(t: Tables, name: string, row: Conversation)
    requires Sound(t) && row.nextMsgNumber == if name in t.conversations then NextNumber(t, name) else 1
    ensures Sound(ConversationStored(t, name, row.data).0)
  {
  }

  lemma ConversationDeletionKeepsSound(t: Tables, name: string)
    requires Sound(t)
    ensures Sound(ConversationDeleted(t, name).0)
  {
    StatementKeepsSound(t, t.(conversations := t.conversations - {name}));
  }

  lemma EventDeletionKeepsSound(t: Tables, name: string, eventId: string)
    requires Sound(t)
    ensures Sound(EventDeleted(t, name, eventId).0)
  {
    StatementKeepsSound(t, t.(events := t.events - {EventKey(eventId, name)}));
  }

  lemma EventsDeletionKeepsSound(t: Tables, name: string)
    requires Sound(t)
    ensures Sound(EventsDeleted(t, name).0)
  {
    StatementKeepsSound(t, t.(events := map k <- t.events | k.convName != name :: t.events[k]));
  }

  lemma UpdateKeepsSound(t: Tables, name: string, eventId: string, data: string)
    requires Sound(t)
    ensures Sound(EventUpdated(t, name, eventId, data).0)
  {
  }

  predicate IsObjectOperation(op: Operation) {
    op.InsertObject? || op.DeleteObject? || op.DeleteObjectMsg? || op.DeleteObjectName?
  }

  lemma ObjectsKeepSound(t: Tables, op: Operation)
    requires Sound(t) && IsObjectOperation(op)
    ensures Sound(Step(t, op).0)
  {
    var u := Step(t, op).0;
    assert u == t.(objects := u.objects) && KeysRefer(u);
    NarrowingKeepsSound(t, u);
  }

  /** In every run event numbers are distinct within a conversation and below its next number. */
  lemma {:induction false} RunIsSound(t: Tables, ops: seq<Operation>)
    requires Sound(t)
    ensures Sound(Run(t, ops))
    decreases ops
  {
    if ops != [] {
      StepKeepsSound(t, ops[0]);
      RunIsSound(Step(t, ops[0]).0, ops[1..]);
    }
  }

  predicate HasEvents(t: Tables, name: string) {
    exists k <- t.events :: k.convName == name
  }

  /** Everything that moves a conversation's next number; a second store and a refused insert do not. */
  lemma NextNumberMovesExactlyWhen(t: Tables, op: Operation, name: string)
    requires Sound(t)
    ensures NextNumber(Step(t, op).0, name) ==
            if op.InsertEvent? && op.name == name && name in t.conversations && EventKey(op.eventId, name) !in t.events
            then NextNumber(t, name) + 1
            else if op.StoreConversation? && op.name == name && name !in t.conversations then 1
            else if op.DeleteConversation? && op.name == name && !HasEvents(t, name) then 0
            else NextNumber(t, name)
  {
  }

  /** A conversation can go exactly when it has no events; a refused delete leaves it in place. */
  lemma ConversationGoesExactlyWhen(t: Tables, name: string)
    requires Sound(t)
    ensures var (u, code) := ConversationDeleted(t, name);
            && (code == Done <==> !HasEvents(t, name)) && (code == Done ==> name !in u.conversations)
            && (code != Done ==> u == t)
  {
  }

  predicate HasObjects(t: Tables, k: EventKey) {
    exists o <- t.objects :: EventKey(o.event, t.objects[o].conv) == k
  }

  /** An event can go exactly when it has no objects. */
  lemma EventGoesExactlyWhen(t: Tables, name: string, eventId: string)
    requires Sound(t)
    ensures var (u, code) := EventDeleted(t, name, eventId);
            && (code == Done <==> !HasObjects(t, EventKey(eventId, name)))
            && u == if code == Done then t.(events := t.events - {EventKey(eventId, name)}) else t
  {
  }

  /** A conversation's events go together, or none of them when one has an object. */
  lemma EventsGoExactlyWhen(t: Tables, name: string)
    requires Sound(t)
    ensures var (u, code) := EventsDeleted(t, name);
            && (code == Done <==> forall k <- t.events :: k.convName == name ==> !HasObjects(t, k))
            && (code == Done ==> !HasEvents(u, name)) && (code != Done ==> u == t)
  {
  }

  /**
   * An insert succeeds exactly when the conversation exists. An event that is known already keeps its number and takes
   * the new data; a new one gets the next number; no other event changes, and a refused insert changes nothing.
   */
  lemma InsertOutcome(t: Tables, name: string, eventId: string, data: string)
    requires Sound(t)
    ensures var (u, code) := EventInserted(t, name, eventId, data);
            var k := EventKey(eventId, name);
            && (code == Done <==> name in t.conversations) && (code != Done ==> u == t)
            && (code == Done ==>
                  && u.events.Keys == t.events.Keys + {k} && u.events[k].data == data
                  && u.events[k].msgNumber == (if k in t.events then t.events[k].msgNumber else NextNumber(t, name))
                  && (forall j <- t.events :: j != k ==> u.events[j] == t.events[j])
                  && u.objects == t.objects && u.conversations.Keys == t.conversations.Keys
                  && forall c <- t.conversations :: u.conversations[c] ==
                       if c == name && k !in t.events
                       then t.conversations[c].(nextMsgNumber := t.conversations[c].nextMsgNumber + 1)
                       else t.conversations[c])
  {
    var k := EventKey(eventId, name);
    if k !in t.events {
      var (t1, n) := NumberTaken(t, name);
      var t2 := t1.(events := t1.events[k := Event(n, data)]);
      if name in t.conversations {
        assert KeysRefer(t2);
      } else {
        assert k in t2.events && k.convName !in t2.conversations;
      }
    }
  }

  // ---------- Numbers are never given twice ----------

  /** The number of the event that an operation brings into a conversation, if it brings one. */
  function NumberGiven(t: Tables, op: Operation, name: string): Option<int> {
    var after := Step(t, op).0;
    if op.InsertEvent? && op.name == name && EventKey(op.eventId, name) !in t.events
       && EventKey(op.eventId, name) in after.events
    then Some(after.events[EventKey(op.eventId, name)].msgNumber) else None
  }

  function NumbersGiven(t: Tables, ops: seq<Operation>, name: string): seq<int>
    decreases ops
  {
    if ops == [] then []
    else
      var given, rest := NumberGiven(t, ops[0], name), NumbersGiven(Step(t, ops[0]).0, ops[1..], name);
      if given.Some? then [given.value] + rest else rest
  }

  /** The conversation exists throughout the run. */
  predicate Lives(t: Tables, ops: seq<Operation>, name: string)
    decreases ops
  {
    name in t.conversations && (ops == [] || Lives(Step(t, ops[0]).0, ops[1..], name))
  }

  /** As long as a conversation lives its events are numbered without gaps or repeats, whatever is deleted meanwhile. */
  lemma {:induction false} NumbersAreConsecutive(t: Tables, ops: seq<Operation>, name: string)
    requires Sound(t) && Lives(t, ops, name)
    ensures var given := NumbersGiven(t, ops, name);
            && (forall i :: 0 <= i < |given| ==> given[i] == NextNumber(t, name) + i)
            && NextNumber(Run(t, ops), name) == NextNumber(t, name) + |given|
    decreases ops
  {
    if ops != [] {
      StepKeepsSound(t, ops[0]);
      NextNumberMovesExactlyWhen(t, ops[0], name);
      OneNumberGiven(t, ops[0], name);
      NumbersAreConsecutive(Step(t, ops[0]).0, ops[1..], name);
    }
  }

  lemma OneNumberGiven(t: Tables, op: Operation, name: string)
    requires Sound(t) && name in t.conversations && name in Step(t, op).0.conversations
    ensures NextNumber(Step(t, op).0, name) == NextNumber(t, name) + (if NumberGiven(t, op, name).Some? then 1 else 0)
    ensures NumberGiven(t, op, name).Some? ==> NumberGiven(t, op, name).value == NextNumber(t, name)
  {
    if op.InsertEvent? && op.name == name && EventKey(op.eventId, name) !in t.events {
      var (t1, n) := NumberTaken(t, name);
      assert KeysRefer(t1.(events := t1.events[EventKey(op.eventId, name) := Event(n, op.data)]));
    }
  }

  /** An event keeps its number as long as it is stored, also when its data is replaced. */
  lemma {:induction false} EventsKeepTheirNumber(t: Tables, ops: seq<Operation>, k: EventKey)
    requires Sound(t) && Stays(t, ops, k)
    ensures k in Run(t, ops).events && Run(t, ops).events[k].msgNumber == t.events[k].msgNumber
    decreases ops
  {
    if ops != [] {
      StepKeepsSound(t, ops[0]);
      StepKeepsNumber(t, ops[0], k);
      EventsKeepTheirNumber(Step(t, ops[0]).0, ops[1..], k);
    }
  }

  predicate Stays(t: Tables, ops: seq<Operation>, k: EventKey)
    decreases ops
  {
    k in t.events && (ops == [] || Stays(Step(t, ops[0]).0, ops[1..], k))
  }

  lemma StepKeepsNumber(t: Tables, op: Operation, k: EventKey)
    requires Sound(t) && k in t.events && k in Step(t, op).0.events
    ensures Step(t, op).0.events[k].msgNumber == t.events[k].msgNumber
  {
  }

  // ---------- Queries ----------

  predicate Fits(t: Tables, k: EventKey, name: string, n: int) {
    k in t.events && k.convName == name && t.events[k].msgNumber == n
  }

  function RowNumbered(t: Tables, name: string, n: int): (row: seq<EventKey>)
    requires NumbersDistinct(t)
    ensures forall k :: k in row <==> Fits(t, k, name, n)
    ensures |row| <= 1
  {
    if exists k <- t.events :: Fits(t, k, name, n) then
      var k :| k in t.events && Fits(t, k, name, n);
      [k]
    else []
  }

  /** The rows of a conversation with numbers between two bounds, in descending order. */
  function Between(t: Tables, name: string, low: int, high: int): (rows: seq<EventKey>)
    requires NumbersDistinct(t)
    decreases high - low + 1
  {
    if high < low then [] else RowNumbered(t, name, high) + Between(t, name, low, high - 1)
  }

  /** What makes a list of rows the answer to an ordered query: the matching rows, each once, numbers falling. */
  ghost predicate Answers(t: Tables, rows: seq<EventKey>, name: string, low: int, high: int) {
    && (forall k :: k in rows <==> k in t.events && k.convName == name && low <= t.events[k].msgNumber <= high)
    && (forall i, j :: 0 <= i < j < |rows| && rows[i] in t.events && rows[j] in t.events
                       ==> t.events[rows[i]].msgNumber > t.events[rows[j]].msgNumber)
  }

  lemma {:induction false} BetweenAnswers(t: Tables, name: string, low: int, high: int)
    requires NumbersDistinct(t)
    ensures Answers(t, Between(t, name, low, high), name, low, high)
    decreases high - low + 1
  {
    if low <= high {
      BetweenAnswers(t, name, low, high - 1);
      NextRowAnswers(t, RowNumbered(t, name, high), Between(t, name, low, high - 1), name, low, high);
    }
  }

  lemma NextRowAnswers(t: Tables, head: seq<EventKey>, tail: seq<EventKey>, name: string, low: int, high: int)
    requires low <= high && Answers(t, tail, name, low, high - 1)
    requires |head| <= 1 && forall k :: k in head <==> Fits(t, k, name, high)
    ensures Answers(t, head + tail, name, low, high)
  {
    var rows := head + tail;
    assert forall k :: k in rows <==> k in head || k in tail;
    forall i, j | 0 <= i < j < |rows| && rows[i] in t.events && rows[j] in t.events
      ensures t.events[rows[i]].msgNumber > t.events[rows[j]].msgNumber
    {
      assert rows[j] == tail[j - |head|] && tail[j - |head|] in tail;
      if i < |head| {
        assert rows[i] == head[i] && head[i] in head;
      } else {
        assert rows[i] == tail[i - |head|] && tail[i - |head|] in tail;
      }
    }
  }

  // ---------- Paging ----------

  /** A negative limit is no limit. */
  function Limited(rows: seq<EventKey>, limit: int): seq<EventKey> {
    if 0 <= limit < |rows| then rows[..limit] else rows
  }

  function Reversed<T>(s: seq<T>): (r: seq<T>)
    ensures |r| == |s| && forall i :: 0 <= i < |s| ==> r[i] == s[|s| - 1 - i]
  {
    if s == [] then [] else Reversed(s[1..]) + [s[0]]
  }

  function HighestMsgNum(t: Tables, name: string): int {
    if name in t.conversations then t.conversations[name].nextMsgNumber - 1 else -1
  }

  function StartAt(t: Tables, name: string, offset: int): int {
    var startAt := if offset == -1 then HighestMsgNum(t, name) else offset;
    if startAt <= 0 then 1 else startAt
  }

  /** The documented start for an offset of -1: number messages below the highest, or 1 if that is negative. */
  function DocumentedStart(t: Tables, name: string, number: int): int {
    var startAt := HighestMsgNum(t, name) - number;
    if startAt < 0 then 1 else startAt
  }

  /**
   * For an offset of -1 a page starts at the highest number instead. That is the documented start exactly for a page
   * size of 0, for the first message alone with a larger page size, and when there is no message for page sizes above
   * the highest number, or of one less than it.
   */
  lemma StartIsDocumentedExactlyWhen(t: Tables, name: string, number: int)
    ensures var high := HighestMsgNum(t, name);
            StartAt(t, name, -1) == DocumentedStart(t, name, number) <==>
            if high >= 1 then number == 0 || (high == 1 && number > 1) else number > high || number == high - 1
  {
  }

  /** For page sizes up to the highest number, a page from the documented start would leave out the newest event. */
  lemma DocumentedStartLeavesOutNewest(t: Tables, name: string, number: int)
    requires NumbersDistinct(t) && 1 <= number <= HighestMsgNum(t, name)
    ensures DocumentedStart(t, name, number) == HighestMsgNum(t, name) - number < StartAt(t, name, -1)
    ensures forall k :: IsFrom(t, k, name, HighestMsgNum(t, name)) ==>
              k !in Between(t, name, 1, DocumentedStart(t, name, number))
  {
    BetweenAnswers(t, name, 1, DocumentedStart(t, name, number));
  }

  const FROM_YOUNGEST_TO_OLDEST := -1
  const FROM_OLDEST_TO_YOUNGEST := 1

  /** The rows that one call loads; a query without upper bound reaches up to the highest number. */
  function Loaded(t: Tables, name: string, offset: int, number: int, direction: int): seq<EventKey>
    requires NumbersDistinct(t)
  {
    if offset == -1 && number == -1 then Between(t, name, 1, HighestMsgNum(t, name))
    else if direction == FROM_YOUNGEST_TO_OLDEST then Limited(Between(t, name, 1, StartAt(t, name, offset)), number)
    else if direction == FROM_OLDEST_TO_YOUNGEST then
      Limited(Reversed(Between(t, name, offset, HighestMsgNum(t, name))), number)
    else Between(t, name, offset, offset + number - 1)
  }

  function LastNumber(t: Tables, rows: seq<EventKey>): int
    requires rows != [] && rows[|rows| - 1] in t.events
  {
    t.events[rows[|rows| - 1]].msgNumber
  }

  /** Paging from the youngest event: on from below the last number, while that exceeds one and pages are full. */
  function Paged(t: Tables, name: string, offset: int, number: int): seq<EventKey>
    requires NumbersDistinct(t) && number >= 1 && (offset == -1 || offset >= 1)
    decreases StartAt(t, name, offset)
  {
    var page := Loaded(t, name, offset, number, FROM_YOUNGEST_TO_OLDEST);
    if |page| < number then page
    else
      PageEnds(t, name, StartAt(t, name, offset), number);
      var last := LastNumber(t, page);
      if last <= 1 then page else page + Paged(t, name, last - 1, number)
  }

  lemma {:induction false} PageSplits(t: Tables, name: string, high: int, n: int)
    requires NumbersDistinct(t) && 1 <= n <= |Between(t, name, 1, high)|
    ensures var rows := Between(t, name, 1, high);
            && rows[n - 1] in t.events
            && rows == rows[..n] + Between(t, name, 1, t.events[rows[n - 1]].msgNumber - 1)
    decreases high
  {
    var rows, head, tail := Between(t, name, 1, high), RowNumbered(t, name, high), Between(t, name, 1, high - 1);
    if head == [] {
      assert rows == tail;
      PageSplits(t, name, high - 1, n);
    } else if n == 1 {
      assert rows[0] == head[0] && head[0] in head && head == [head[0]];
      assert rows[..1] == head;
    } else {
      PageSplits(t, name, high - 1, n - 1);
      CutBehindHead(head, tail, n, Between(t, name, 1, t.events[tail[n - 2]].msgNumber - 1));
    }
  }

  lemma CutBehindHead<T>(head: seq<T>, tail: seq<T>, n: nat, rest: seq<T>)
    requires |head| == 1 && 2 <= n <= |tail| + 1 && tail == tail[..n - 1] + rest
    ensures (head + tail)[n - 1] == tail[n - 2] && head + tail == (head + tail)[..n] + rest
  {
  }

  lemma PageEnds(t: Tables, name: string, start: int, n: int)
    requires NumbersDistinct(t) && 1 <= n <= |Between(t, name, 1, start)|
    ensures var k := Between(t, name, 1, start)[n - 1]; k in t.events && 1 <= t.events[k].msgNumber <= start
  {
    BetweenAnswers(t, name, 1, start);
    assert Between(t, name, 1, start)[n - 1] in Between(t, name, 1, start);
  }

  lemma {:induction false} PagedIsBetween(t: Tables, name: string, offset: int, number: int)
    requires NumbersDistinct(t) && number >= 1 && (offset == -1 || offset >= 1)
    ensures Paged(t, name, offset, number) == Between(t, name, 1, StartAt(t, name, offset))
    decreases StartAt(t, name, offset)
  {
    var start := StartAt(t, name, offset);
    var rows := Between(t, name, 1, start);
    if number <= |rows| {
      PagedUnfolds(t, name, offset, number);
      PageSplits(t, name, start, number);
      var last := t.events[rows[number - 1]].msgNumber;
      if last <= 1 {
        assert rows == rows[..number] + [];
      } else {
        PagedIsBetween(t, name, last - 1, number);
        assert StartAt(t, name, last - 1) == last - 1;
      }
    } else {
      PagedStops(t, name, offset, number);
    }
  }

  lemma PagedStops(t: Tables, name: string, offset: int, number: int)
    requires NumbersDistinct(t) && (offset == -1 || offset >= 1)
    requires number >= 1 && number > |Between(t, name, 1, StartAt(t, name, offset))|
    ensures Paged(t, name, offset, number) == Between(t, name, 1, StartAt(t, name, offset))
  {
  }

  lemma PagedUnfolds(t: Tables, name: string, offset: int, number: int)
    requires NumbersDistinct(t) && (offset == -1 || offset >= 1)
    requires 1 <= number <= |Between(t, name, 1, StartAt(t, name, offset))|
    ensures var start := StartAt(t, name, offset);
            var k := Between(t, name, 1, start)[number - 1];
            && k in t.events && 1 <= t.events[k].msgNumber <= start
            && Paged(t, name, offset, number) ==
               Between(t, name, 1, start)[..number] +
               (if t.events[k].msgNumber <= 1 then [] else Paged(t, name, t.events[k].msgNumber - 1, number))
  {
    PageEnds(t, name, StartAt(t, name, offset), number);
    PageIsCut(t, name, offset, number);
  }

  lemma PageIsCut(t: Tables, name: string, offset: int, number: int)
    requires NumbersDistinct(t) && 1 <= number <= |Between(t, name, 1, StartAt(t, name, offset))|
    ensures var rows := Between(t, name, 1, StartAt(t, name, offset));
            Loaded(t, name, offset, number, FROM_YOUNGEST_TO_OLDEST) == rows[..number]
  {
  }

  /** Paging from the youngest, whatever the page size, lists every event of the conversation once, numbers falling. */
  lemma PagingListsEveryEventOnce(t: Tables, name: string, number: int)
    requires Sound(t) && number >= 1
    ensures var rows := Paged(t, name, -1, number);
            && rows == Loaded(t, name, -1, -1, FROM_YOUNGEST_TO_OLDEST)
            && (forall k :: k in rows <==> k in t.events && k.convName == name)
            && (forall i, j :: 0 <= i < j < |rows| ==> t.events[rows[i]].msgNumber > t.events[rows[j]].msgNumber)
  {
    PagedIsBetween(t, name, -1, number);
    var high := HighestMsgNum(t, name);
    BetweenAnswers(t, name, 1, high);
    BetweenAnswers(t, name, 1, StartAt(t, name, -1));
    if high < 1 {
      assert forall k :: k in Between(t, name, 1, 1) ==> false;
    }
  }

  /** The event is stored in the conversation under a number from the given one on. */
  predicate IsFrom(t: Tables, k: EventKey, name: string, offset: int) {
    k in t.events && k.convName == name && offset <= t.events[k].msgNumber
  }

  /**
   * A page from the oldest: numbers rise from the offset on, and what it leaves out is younger than all it has. It
   * leaves something out only when it is full; a negative page size has no limit.
   */
  lemma OldestFirstMeaning(t: Tables, name: string, offset: int, number: int)
    requires Sound(t) && !(offset == -1 && number == -1)
    ensures var rows := Loaded(t, name, offset, number, FROM_OLDEST_TO_YOUNGEST);
            && (forall k <- rows :: IsFrom(t, k, name, offset))
            && (forall i, j :: 0 <= i < j < |rows| && rows[i] in t.events && rows[j] in t.events
                               ==> t.events[rows[i]].msgNumber < t.events[rows[j]].msgNumber)
            && (forall k, i :: IsFrom(t, k, name, offset) && k !in rows && 0 <= i < |rows| && rows[i] in t.events
                               ==> t.events[rows[i]].msgNumber < t.events[k].msgNumber)
            && ((exists k :: IsFrom(t, k, name, offset) && k !in rows) ==> 0 <= number == |rows|)
  {
    var down := Between(t, name, offset, HighestMsgNum(t, name));
    var up, rows := Reversed(down), Loaded(t, name, offset, number, FROM_OLDEST_TO_YOUNGEST);
    BetweenAnswers(t, name, offset, HighestMsgNum(t, name));
    forall k
      ensures k in up <==> IsFrom(t, k, name, offset)
    {
      ReversedKeeps(down, k);
    }
    RisingPrefix(t, up, rows);
  }

  lemma ReversedKeeps<T>(s: seq<T>, x: T)
    ensures x in Reversed(s) <==> x in s
  {
    if x in s {
      var i :| 0 <= i < |s| && s[i] == x;
      assert Reversed(s)[|s| - 1 - i] == x;
    }
  }

  lemma RisingPrefix(t: Tables, up: seq<EventKey>, rows: seq<EventKey>)
    requires rows <= up && forall k <- up :: k in t.events
    requires forall i, j :: 0 <= i < j < |up| ==> t.events[up[i]].msgNumber < t.events[up[j]].msgNumber
    ensures forall k, i :: k in up && k !in rows && 0 <= i < |rows| ==>
              t.events[rows[i]].msgNumber < t.events[k].msgNumber
  {
    forall k, i | k in up && k !in rows && 0 <= i < |rows|
      ensures t.events[rows[i]].msgNumber < t.events[k].msgNumber
    {
      var j :| 0 <= j < |up| && up[j] == k;
      assert forall m :: 0 <= m < |rows| ==> rows[m] == up[m] && rows[m] in rows;
      assert i < j;
    }
  }
}
