/** The repository object: its operations run statement by statement on the database it holds. */
module RepositoryAccess {
  import opened Wrappers
  import opened AppRepository
  import RepositoryReads

  class Repository {
    var db: Tables
    var saved: Option<Tables>

    ghost predicate Valid()
      reads this
    {
      Sound(db) && saved == None
    }

    constructor ()
      ensures Valid() && db == EMPTY
    {
      db, saved := EMPTY, None;
    }

    /** The engine: a statement that breaks a foreign key is undone and reported. */
    method Execute(after: Tables) returns (code: SqlCode)
      modifies this`db
      ensures (db, code) == Executed(old(db), after)
    {
      if KeysRefer(after) {
        db := after;
        return Done;
      }
      return Constraint;
    }

    method BeginTransaction()
      modifies this`saved
      ensures saved == Some(db)
    {
      saved := Some(db);
    }

    method CommitTransaction()
      modifies this`saved
      ensures saved == None
    {
      saved := None;
    }

    method RollbackTransaction()
      requires saved.Some?
      modifies this
      ensures db == old(saved).value && saved == None
    {
      db, saved := saved.value, None;
    }

    method StoreConversation(name: string, conversation: string) returns (code: SqlCode)
      requires Valid()
      modifies this
      ensures Valid() && (db, code) == ConversationStored(old(db), name, conversation)
      ensures code == Done && name in db.conversations && db.conversations[name].data == conversation
      ensures forall c <- old(db).conversations :: c != name ==>
                c in db.conversations && db.conversations[c] == old(db).conversations[c]
    {
      StepKeepsSound(db, Operation.StoreConversation(name, conversation));
      RepositoryReads.StoreOutcome(db, name, conversation);
      if name in db.conversations {
        var row := db.conversations[name].(data := conversation);
        var updated := Execute(db.(conversations := db.conversations[name := row]));
      }
      if name in db.conversations {
        code := Execute(db);
      } else {
        code := Execute(db.(conversations := db.conversations[name := Conversation(1, conversation)]));
      }
    }

    method LoadConversation(name: string) returns (code: SqlCode, conversation: Option<string>)
      ensures conversation.Some? <==> name in db.conversations
      ensures conversation.Some? ==> conversation.value == db.conversations[name].data
      ensures code == if conversation.Some? then Row else Done
    {
      if name in db.conversations {
        return Row, Some(db.conversations[name].data);
      }
      return Done, None;
    }

    method DeleteConversation(name: string) returns (code: SqlCode)
      requires Valid()
      modifies this
      ensures Valid() && (db, code) == ConversationDeleted(old(db), name)
    {
      StepKeepsSound(db, Operation.DeleteConversation(name));
      code := Execute(db.(conversations := db.conversations - {name}));
    }

    /** No event of the conversation has a larger number, and the next new event gets the one behind it. */
    method GetHighestMsgNum(name: string) returns (number: int)
      requires Valid()
      ensures number == HighestMsgNum(db, name)
      ensures forall k <- db.events | k.convName == name :: 1 <= db.events[k].msgNumber <= number
      ensures forall id, data | name in db.conversations && EventKey(id, name) !in db.events ::
                var after := EventInserted(db, name, id, data).0;
                EventKey(id, name) in after.events && after.events[EventKey(id, name)].msgNumber == number + 1
      ensures number == -1 <==> name !in db.conversations
    {
      forall id, data | name in db.conversations && EventKey(id, name) !in db.events
        ensures EventKey(id, name) in EventInserted(db, name, id, data).0.events
        ensures EventInserted(db, name, id, data).0.events[EventKey(id, name)].msgNumber == NextNumber(db, name)
      {
        InsertOutcome(db, name, id, data);
      }
      if name !in db.conversations {
        return -1;
      }
      number := db.conversations[name].nextMsgNumber;
      return number - 1;
    }

    method GetNextSequenceNum(name: string) returns (nextNumber: int)
      requires KeysRefer(db)
      modifies this`db
      ensures (db, nextNumber) == NumberTaken(old(db), name)
    {
      if name !in db.conversations {
        return -1;
      }
      nextNumber := db.conversations[name].nextMsgNumber;
      var row := db.conversations[name].(nextMsgNumber := nextNumber + 1);
      var updated := Execute(db.(conversations := db.conversations[name := row]));
    }

    method ExistEvent(name: string, eventId: string) returns (found: bool)
      ensures found <==> EventKey(eventId, name) in db.events
    {
      found := EventKey(eventId, name) in db.events;
    }

    method InsertEvent(name: string, eventId: string, event: string) returns (code: SqlCode)
      requires Valid()
      modifies this
      ensures Valid() && (db, code) == EventInserted(old(db), name, eventId, event)
    {
      StepKeepsSound(db, Operation.InsertEvent(name, eventId, event));
      var found := ExistEvent(name, eventId);
      if found {
        code := UpdateEvent(name, eventId, event);
        return;
      }
      BeginTransaction();
      var msgNumber := GetNextSequenceNum(name);
      code := Execute(db.(events := db.events[EventKey(eventId, name) := Event(msgNumber, event)]));
      if code != Done {
        RollbackTransaction();
      } else {
        CommitTransaction();
      }
    }

    method UpdateEvent(name: string, eventId: string, event: string) returns (code: SqlCode)
      requires Valid()
      modifies this
      ensures Valid() && (db, code) == EventUpdated(old(db), name, eventId, event)
    {
      StepKeepsSound(db, Operation.UpdateEvent(name, eventId, event));
      var k := EventKey(eventId, name);
      if k in db.events {
        code := Execute(db.(events := db.events[k := db.events[k].(data := event)]));
      } else {
        code := Execute(db);
      }
    }

    method LoadEvent(name: string, eventId: string) returns (code: SqlCode, event: Option<Event>)
      ensures event.Some? <==> EventKey(eventId, name) in db.events
      ensures event.Some? ==> event.value == db.events[EventKey(eventId, name)]
      ensures code == if event.Some? then Row else Done
    {
      var k := EventKey(eventId, name);
      if k in db.events {
        return Row, Some(db.events[k]);
      }
      return Done, None;
    }

    /** The caller's last number is overwritten by each row, and so kept when there is none. */
    method LoadEvents(name: string, offset: int, number: int, direction: int, last: int)
      returns (events: seq<string>, lastMsgNumber: int)
      requires Valid()
      ensures var rows := Loaded(db, name, offset, number, direction);
              && |events| == |rows|
              && (forall i :: 0 <= i < |rows| ==> rows[i] in db.events && events[i] == db.events[rows[i]].data)
              && lastMsgNumber == if rows == [] then last else LastNumber(db, rows)
    {
      var rows := Query(name, offset, number, direction);
      events, lastMsgNumber := [], last;
      for i := 0 to |rows|
        invariant |events| == i
        invariant forall j :: 0 <= j < i ==> events[j] == db.events[rows[j]].data
        invariant lastMsgNumber == if i == 0 then last else db.events[rows[i - 1]].msgNumber
      {
        lastMsgNumber := db.events[rows[i]].msgNumber;
        events := events + [db.events[rows[i]].data];
      }
    }

    /** Which of the four queries a call runs. */
    method Query(name: string, offset: int, number: int, direction: int) returns (rows: seq<EventKey>)
      requires Valid()
      ensures rows == Loaded(db, name, offset, number, direction)
      ensures forall i :: 0 <= i < |rows| ==> rows[i] in db.events
    {
      var highestNum := GetHighestMsgNum(name);
      LoadedAreStored(db, name, offset, number, direction);
      if offset == -1 && number == -1 {
        rows := Between(db, name, 1, highestNum);
      } else if direction == FROM_YOUNGEST_TO_OLDEST {
        var startAt := if offset == -1 then highestNum else offset;
        startAt := if startAt <= 0 then 1 else startAt;
        rows := Limited(Between(db, name, 1, startAt), number);
      } else if direction == FROM_OLDEST_TO_YOUNGEST {
        rows := Limited(Reversed(Between(db, name, offset, highestNum)), number);
      } else {
        rows := Between(db, name, offset, offset + number - 1);
      }
    }

    method DeleteEvent(name: string, eventId: string) returns (code: SqlCode)
      requires Valid()
      modifies this
      ensures Valid() && (db, code) == EventDeleted(old(db), name, eventId)
    {
      StepKeepsSound(db, Operation.DeleteEvent(name, eventId));
      code := Execute(db.(events := db.events - {EventKey(eventId, name)}));
    }

    method DeleteEventName(name: string) returns (code: SqlCode)
      requires Valid()
      modifies this
      ensures Valid() && (db, code) == EventsDeleted(old(db), name)
    {
      StepKeepsSound(db, Operation.DeleteEventName(name));
      code := Execute(db.(events := map k <- db.events | k.convName != name :: db.events[k]));
    }

    method InsertObject(name: string, eventId: string, objectId: string, data: string) returns (code: SqlCode)
      requires Valid()
      modifies this
      ensures Valid() && (db, code) == ObjectInserted(old(db), name, eventId, objectId, data)
    {
      StepKeepsSound(db, Operation.InsertObject(name, eventId, objectId, data));
      code := Execute(db.(objects := db.objects[ObjectKey(objectId, eventId) := StoredObject(name, data)]));
    }

    method DeleteObject(name: string, eventId: string, objectId: string) returns (code: SqlCode)
      requires Valid()
      modifies this
      ensures Valid() && (db, code) == ObjectDeleted(old(db), name, eventId, objectId)
    {
      StepKeepsSound(db, Operation.DeleteObject(name, eventId, objectId));
      var o := ObjectKey(objectId, eventId);
      if o in db.objects && db.objects[o].conv == name {
        code := Execute(db.(objects := db.objects - {o}));
      } else {
        code := Execute(db);
      }
    }

    method DeleteObjectMsg(name: string, eventId: string) returns (code: SqlCode)
      requires Valid()
      modifies this
      ensures Valid() && (db, code) == EventObjectsDeleted(old(db), name, eventId)
    {
      StepKeepsSound(db, Operation.DeleteObjectMsg(name, eventId));
      code := Execute(db.(objects :=
        map o <- db.objects | !(o.event == eventId && db.objects[o].conv == name) :: db.objects[o]));
    }

    method DeleteObjectName(name: string) returns (code: SqlCode)
      requires Valid()
      modifies this
      ensures Valid() && (db, code) == ObjectsDeleted(old(db), name)
    {
      StepKeepsSound(db, Operation.DeleteObjectName(name));
      code := Execute(db.(objects := map o <- db.objects | db.objects[o].conv != name :: db.objects[o]));
    }
  }

  lemma LoadedAreStored(t: Tables, name: string, offset: int, number: int, direction: int)
    requires Sound(t)
    ensures forall i :: 0 <= i < |Loaded(t, name, offset, number, direction)|
                        ==> Loaded(t, name, offset, number, direction)[i] in t.events
  {
    BetweenAnswers(t, name, 1, HighestMsgNum(t, name));
    BetweenAnswers(t, name, 1, StartAt(t, name, offset));
    BetweenAnswers(t, name, offset, HighestMsgNum(t, name));
    BetweenAnswers(t, name, offset, offset + number - 1);
  }
}
