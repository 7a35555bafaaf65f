/** The run-queue as an object changed between lock operations, and the re-key and re-scan commands it handles. */
module CommandHandling {
  import opened Wrappers
  import opened CommandQueue

  /** Each method is one region between lock operations; together they are the steps of CommandQueue. */
  class CommandThread {
    var commandQueue: seq<Command>
    var handler: Handler
    var wakeUp: bool
    var reKey: Call
    var reScan: Call
    var reKeyDone: bool
    var reScanDone: bool
    var nextTicket: Ticket
    ghost var batches: seq<seq<Command>>
    ghost var completed: seq<Command>
    ghost var issued: multiset<Token>
    ghost var signals: multiset<Token>

    ghost function Line(): RunQueue
      reads this
    {
      RunQueue(commandQueue, handler, wakeUp, batches, completed)
    }

    ghost function Desk(): Callers
      reads this
    {
      Callers(reKey, reScan, reKeyDone, reScanDone, nextTicket, issued, signals)
    }

    ghost function State(): System
      reads this
    {
      System(Line(), Desk())
    }

    constructor ()
      ensures State() == INITIAL
    {
      commandQueue, handler, wakeUp, batches, completed := [], NotStarted, false, [], [];
      reKey, reScan, reKeyDone, reScanDone := NoCall, NoCall, false, false;
      nextTicket, issued, signals := 0, multiset{}, multiset{};
    }

    /** The region under the thread lock. */
    method CheckStartRunThread()
      modifies this`handler
      ensures State() == Step(old(State()), Start)
    {
      if handler == NotStarted {
        handler := Starting;
      }
    }

    /** The region under the queue lock. */
    method PushBack(messages: seq<Command>)
      modifies this`commandQueue, this`wakeUp, this`batches
      ensures State() == old(State()).(queue := Appended(old(Line()), messages))
    {
      commandQueue := commandQueue + messages;
      wakeUp := wakeUp || handler == Sleeping;
      batches := batches + [messages];
    }

    /** Two regions one after the other; between them other threads may take steps of their own. */
    method AddMsgInfosToRunQueue(messages: seq<Command>)
      modifies this
      ensures State() == old(State()).(queue := Appended(Started(old(Line())), messages))
    {
      CheckStartRunThread();
      PushBack(messages);
    }

    method AddMsgInfoToRunQueue(message: Command)
      modifies this
      ensures State() == old(State()).(queue := Appended(Started(old(Line())), [message]))
    {
      AddMsgInfosToRunQueue([message]);
    }

    /** The flag goes up for whichever message the callback belongs to; call is a label of the model. */
    method SendActionCallback(a: Action, ghost call: Option<Ticket>)
      modifies this`reKeyDone, this`reScanDone, this`signals
      ensures Line() == old(Line())
      ensures Desk() == Signalled(old(Desk()), a, call)
    {
      assert !IsCallAction(a) ==> signals + TokensOfCallback(a, call) == signals;
      match a {
        case NoAction =>
          return;
        case ReKeyAction =>
          reKeyDone := true;
        case ReScanAction =>
          reScanDone := true;
        case UnknownAction =>
          return;
      }
      signals := signals + TokensOfCallback(a, call);
    }

    /** reKeyDevice and rescanUserDevices: BeginCall, CheckStartRunThread, SubmitCall, then ReturnFromCall. */
    method BeginCall(a: Action)
      requires Enabled(State(), Begin(a))
      modifies this
      ensures State() == Step(old(State()), Begin(a))
    {
      if a == ReKeyAction {
        reKey, reKeyDone := Begun(nextTicket), false;
      } else {
        reScan, reScanDone := Begun(nextTicket), false;
      }
      nextTicket := nextTicket + 1;
    }

    method SubmitCall(a: Action)
      requires Enabled(State(), Submit(a))
      modifies this
      ensures State() == Step(old(State()), Submit(a))
    {
      var t := if a == ReKeyAction then reKey.ticket else reScan.ticket;
      PushBack([if a == ReKeyAction then ReKeyDevice(t) else ReScanUserDevices(t)]);
      if a == ReKeyAction {
        reKey := Waiting(t);
      } else {
        reScan := Waiting(t);
      }
      issued := issued + multiset{Token(a, t)};
    }

    /** The wait loop: the call returns once the flag is up, and goes on waiting otherwise. */
    method ReturnFromCall(a: Action) returns (returned: bool)
      requires IsCallAction(a) && Desk().CallOf(a).Waiting?
      modifies this
      ensures returned <==> Enabled(old(State()), Return(a))
      ensures State() == Step(old(State()), Return(a))
    {
      returned := if a == ReKeyAction then reKeyDone else reScanDone;
      if returned {
        if a == ReKeyAction {
          reKey := NoCall;
        } else {
          reScan := NoCall;
        }
      }
    }

    /** The handler owns the queue lock: sleep on an empty queue, else take up the front command and unlock. */
    method TakeUpFront(effects: seq<Effect>)
      modifies this`handler, this`wakeUp
      ensures Line() == TakenUp(old(Line()), effects)
    {
      wakeUp := false;
      if commandQueue == [] {
        handler := Sleeping;
      } else {
        handler := Working(effects);
      }
    }

    method PerformEffect()
      requires Enabled(State(), Act)
      modifies this
      ensures State() == Step(old(State()), Act)
    {
      var effect := handler.todo[0];
      handler := Working(handler.todo[1..]);
      match effect
      case Enqueue(c) => PushBack([c]);
      case Signal(a, call) => SendActionCallback(a, call);
    }

    method PopFront(effects: seq<Effect>)
      requires Enabled(State(), Next(effects))
      modifies this
      ensures State() == Step(old(State()), Next(effects))
    {
      completed := completed + [commandQueue[0]];
      commandQueue := commandQueue[1..];
      TakeUpFront(effects);
    }
  }

  // ---------- The commands ----------

  datatype ServerDevice = ServerDevice(id: string, name: string)

  /** What the commands see of a stored conversation: its ratchet state is there, or has been reset. */
  datatype Conversation = Conversation(deviceName: string, valid: bool, hasRatchet: bool)

  function Ids(devices: seq<ServerDevice>): set<string> {
    set d | d in devices :: d.id
  }

  /** The server failed to answer, or knows no device of the user. */
  predicate NoDevices(server: Option<seq<ServerDevice>>) {
    server.None? || server.value == []
  }

  /** The ping that sets up a device, followed by its hellos, one for every group shared with the user. */
  function PingAndHellos(id: string, hellos: string -> nat): seq<Effect> {
    seq(hellos(id) + 1, _ => Enqueue(SendMessage(id, NoAction, None)))
  }

  function PingsTo(ids: seq<string>, hellos: string -> nat): seq<Effect> {
    if ids == [] then []
    else PingsTo(ids[..|ids| - 1], hellos) + PingAndHellos(ids[|ids| - 1], hellos)
  }

  /** The listed devices that are neither this device nor known, in order. */
  function NewDevices(devices: seq<ServerDevice>, known: set<string>, ownDevice: Option<string>): seq<string> {
    NewDevicesTo(devices, |devices|, known, ownDevice)
  }

  /** Those among the first n. */
  function NewDevicesTo(devices: seq<ServerDevice>, n: nat, known: set<string>, ownDevice: Option<string>): seq<string>
    requires n <= |devices|
  {
    if n == 0 then []
    else
      var last := devices[n - 1].id;
      NewDevicesTo(devices, n - 1, known, ownDevice) + (if last in known || ownDevice == Some(last) then [] else [last])
  }

  lemma PingsToOneMore(ids: seq<string>, id: string, hellos: string -> nat)
    ensures PingsTo(ids + [id], hellos) == PingsTo(ids, hellos) + PingAndHellos(id, hellos)
  {
    assert (ids + [id])[..|ids|] == ids;
  }

  lemma PingsToNew(devices: seq<ServerDevice>, i: nat, known: set<string>, ownDevice: Option<string>,
                   hellos: string -> nat)
    requires i < |devices|
    ensures var ids, more := NewDevicesTo(devices, i, known, ownDevice), NewDevicesTo(devices, i + 1, known, ownDevice);
            var isNew := IsNew(devices[i], known, ownDevice);
            && |more| == |ids| + (if isNew then 1 else 0)
            && PingsTo(more, hellos) ==
               PingsTo(ids, hellos) + (if isNew then PingAndHellos(devices[i].id, hellos) else [])
  {
    var ids, id := NewDevicesTo(devices, i, known, ownDevice), devices[i].id;
    if IsNew(devices[i], known, ownDevice) {
      PingsToOneMore(ids, id, hellos);
    } else {
      assert ids + [] == ids && PingsTo(ids, hellos) + [] == PingsTo(ids, hellos);
    }
  }

  lemma {:induction false} PingsArePings(ids: seq<string>, hellos: string -> nat)
    ensures forall e <- PingsTo(ids, hellos) :: IsPing(e)
    ensures |PingsTo(ids, hellos)| >= |ids|
  {
    if ids != [] {
      PingsArePings(ids[..|ids| - 1], hellos);
    }
  }

  lemma {:induction false} NewDevicesAreNew(devices: seq<ServerDevice>, n: nat, known: set<string>,
                                            ownDevice: Option<string>)
    requires n <= |devices|
    ensures forall id <- NewDevicesTo(devices, n, known, ownDevice) :: id !in known && ownDevice != Some(id)
  {
    if n > 0 {
      NewDevicesAreNew(devices, n - 1, known, ownDevice);
    }
  }

  /** The last listed device is the last new one exactly when it is new. */
  lemma LastListedIsLastNewExactlyWhen(devices: seq<ServerDevice>, known: set<string>, ownDevice: Option<string>)
    requires NewDevices(devices, known, ownDevice) != []
    ensures var unknown, last := NewDevices(devices, known, ownDevice), devices[|devices| - 1].id;
            unknown[|unknown| - 1] == last <==> last !in known && ownDevice != Some(last)
  {
    NewDevicesAreNew(devices, |devices|, known, ownDevice);
    var unknown := NewDevices(devices, known, ownDevice);
    assert unknown[|unknown| - 1] in unknown;
  }

  /** Behind a new device the list names this device itself, which is left over for the callback ping. */
  lemma CallbackPingToOneself(device: string, own: string, name: string)
    requires device != own
    ensures var devices := [ServerDevice(device, name), ServerDevice(own, name)];
            NewDevices(devices, {}, Some(own)) == [device] && devices[|devices| - 1].id == own
  {
    var devices := [ServerDevice(device, name), ServerDevice(own, name)];
    assert NewDevicesTo(devices, 1, {}, Some(own)) == [device];
  }

  /** The device is neither known nor this one. */
  predicate IsNew(d: ServerDevice, known: set<string>, ownDevice: Option<string>) {
    d.id !in known && ownDevice != Some(d.id)
  }

  /** How many messages the new devices among the first n get. */
  function MessagesBefore(devices: seq<ServerDevice>, n: nat, known: set<string>, ownDevice: Option<string>,
                          hellos: string -> nat): nat
    requires n <= |devices|
  {
    if n == 0 then 0
    else MessagesBefore(devices, n - 1, known, ownDevice, hellos)
         + if IsNew(devices[n - 1], known, ownDevice) then hellos(devices[n - 1].id) + 1 else 0
  }

  /**
   * The messages to the first n devices: in the order of the list, each listing of a new device contributes one ping
   * and its hellos, all of them addressed to it, and there are no others.
   */
  ghost predicate FollowList(pings: seq<Effect>, devices: seq<ServerDevice>, n: nat, known: set<string>,
                             ownDevice: Option<string>, hellos: string -> nat)
    requires n <= |devices|
  {
    && |pings| == MessagesBefore(devices, n, known, ownDevice, hellos)
    && (forall e <- pings :: exists d <- devices :: IsNew(d, known, ownDevice) && e == MessageTo(d.id))
    && (forall i | 0 <= i < n && IsNew(devices[i], known, ownDevice) ::
          GoTo(pings, MessagesBefore(devices, i, known, ownDevice, hellos), hellos(devices[i].id) + 1, devices[i].id))
  }

  /** From a place on, so many messages are addressed to the device. */
  predicate GoTo(pings: seq<Effect>, start: nat, count: nat, id: string) {
    start + count <= |pings| && forall j | start <= j < start + count :: pings[j] == MessageTo(id)
  }

  function MessageTo(id: string): (e: Effect)
    ensures e.Enqueue? && e.c.SendMessage? && e.c.deviceId == id && e.c.action == NoAction && e.c.call == None
  {
    Enqueue(SendMessage(id, NoAction, None))
  }

  lemma {:induction false} PingsFollowList(devices: seq<ServerDevice>, n: nat, known: set<string>,
                                           ownDevice: Option<string>, hellos: string -> nat)
    requires n <= |devices|
    ensures FollowList(PingsTo(NewDevicesTo(devices, n, known, ownDevice), hellos), devices, n, known, ownDevice,
                       hellos)
  {
    if n > 0 {
      PingsFollowList(devices, n - 1, known, ownDevice, hellos);
      OneMoreListed(devices, n - 1, known, ownDevice, hellos);
      assert n - 1 + 1 == n;
    } else {
      NothingFollows(devices, known, ownDevice, hellos);
    }
  }

  lemma NothingFollows(devices: seq<ServerDevice>, known: set<string>, ownDevice: Option<string>,
                       hellos: string -> nat)
    ensures FollowList(PingsTo(NewDevicesTo(devices, 0, known, ownDevice), hellos), devices, 0, known, ownDevice,
                       hellos)
  {
  }

  lemma OneMoreListed(devices: seq<ServerDevice>, n: nat, known: set<string>, ownDevice: Option<string>,
                      hellos: string -> nat)
    requires n < |devices|
    requires FollowList(PingsTo(NewDevicesTo(devices, n, known, ownDevice), hellos), devices, n, known, ownDevice,
                        hellos)
    ensures FollowList(PingsTo(NewDevicesTo(devices, n + 1, known, ownDevice), hellos), devices, n + 1, known,
                       ownDevice, hellos)
  {
    PingsToNew(devices, n, known, ownDevice, hellos);
    OneMoreFollows(PingsTo(NewDevicesTo(devices, n, known, ownDevice), hellos), devices, n, known, ownDevice, hellos);
  }

  lemma NewPingsFollowList(devices: seq<ServerDevice>, known: set<string>, ownDevice: Option<string>,
                           hellos: string -> nat)
    ensures FollowList(PingsTo(NewDevices(devices, known, ownDevice), hellos), devices, |devices|, known, ownDevice,
                       hellos)
  {
    PingsFollowList(devices, |devices|, known, ownDevice, hellos);
  }

  lemma OneMoreFollows(pings: seq<Effect>, devices: seq<ServerDevice>, n: nat, known: set<string>,
                       ownDevice: Option<string>, hellos: string -> nat)
    requires n < |devices| && FollowList(pings, devices, n, known, ownDevice, hellos)
    ensures var more := if IsNew(devices[n], known, ownDevice) then PingAndHellos(devices[n].id, hellos) else [];
            FollowList(pings + more, devices, n + 1, known, ownDevice, hellos)
  {
    var more := if IsNew(devices[n], known, ownDevice) then PingAndHellos(devices[n].id, hellos) else [];
    forall e <- pings + more
      ensures exists d <- devices :: IsNew(d, known, ownDevice) && e == MessageTo(d.id)
    {
      if e !in pings {
        assert devices[n] in devices && e in more;
      }
    }
    forall i | 0 <= i < n + 1 && IsNew(devices[i], known, ownDevice)
      ensures GoTo(pings + more, MessagesBefore(devices, i, known, ownDevice, hellos), hellos(devices[i].id) + 1,
                   devices[i].id)
    {
      if i < n {
        assert GoTo(pings, MessagesBefore(devices, i, known, ownDevice, hellos), hellos(devices[i].id) + 1,
                    devices[i].id);
      } else {
        assert MessagesBefore(devices, i, known, ownDevice, hellos) == |pings|;
        assert GoTo(pings + more, |pings|, |more|, devices[n].id);
      }
    }
  }

  /**
   * Without a new device the signal is raised at once. Else the new devices get their messages in the order of the
   * list, and the last message, which carries the signal, goes to the last device listed.
   */
  ghost predicate Addresses(effects: seq<Effect>, ticket: Ticket, ownDevice: Option<string>, devices: seq<ServerDevice>,
                            known: set<string>, hellos: string -> nat)
  {
    if forall d <- devices :: !IsNew(d, known, ownDevice) then effects == [Signal(ReScanAction, Some(ticket))]
    else
      && effects != []
      && FollowList(effects[..|effects| - 1], devices, |devices|, known, ownDevice, hellos)
      && effects[|effects| - 1] == Enqueue(SendMessage(devices[|devices| - 1].id, ReScanAction, Some(ticket)))
  }

  lemma EffectsAddress(devices: seq<ServerDevice>, known: set<string>, others: set<string>, ownDevice: Option<string>,
                       hellos: string -> nat, ticket: Ticket)
    requires devices != [] && forall d <- devices :: d.id in known <==> d.id in others
    ensures var unknown := NewDevices(devices, others, ownDevice);
            var last := Enqueue(SendMessage(devices[|devices| - 1].id, ReScanAction, Some(ticket)));
            Addresses(if unknown == [] then [Signal(ReScanAction, Some(ticket))] else PingsTo(unknown, hellos) + [last],
                      ticket, ownDevice, devices, known, hellos)
  {
    NewDevicesAgree(devices, |devices|, known, others, ownDevice);
    NewPingsFollowList(devices, known, ownDevice, hellos);
    assert devices[..|devices|] == devices;
    var unknown := NewDevices(devices, others, ownDevice);
    if unknown != [] {
      var last := Enqueue(SendMessage(devices[|devices| - 1].id, ReScanAction, Some(ticket)));
      assert (PingsTo(unknown, hellos) + [last])[..|PingsTo(unknown, hellos)|] == PingsTo(unknown, hellos);
    }
  }

  /** The pings depend on which of the listed devices are known, and on nothing else. */
  lemma {:induction false} NewDevicesAgree(devices: seq<ServerDevice>, n: nat, known: set<string>, others: set<string>,
                                           ownDevice: Option<string>)
    requires n <= |devices| && forall d <- devices :: d.id in known <==> d.id in others
    ensures NewDevicesTo(devices, n, known, ownDevice) == NewDevicesTo(devices, n, others, ownDevice)
    ensures NewDevicesTo(devices, n, known, ownDevice) == [] <==>
            forall d <- devices[..n] :: !IsNew(d, known, ownDevice)
  {
    if n > 0 {
      NewDevicesAgree(devices, n - 1, known, others, ownDevice);
      assert devices[n - 1] in devices;
      assert forall d :: d in devices[..n] <==> d in devices[..n - 1] || d == devices[n - 1];
      assert IsNew(devices[n - 1], known, ownDevice) <==>
             NewDevicesTo(devices, n, known, ownDevice) != NewDevicesTo(devices, n - 1, known, ownDevice);
    }
  }

  /** A conversation that could be loaded takes the device name the server lists. */
  function Renamed(c: Conversation, name: string): Conversation {
    if c.valid then c.(deviceName := name) else c
  }

  /**
   * Re-scan: conversations of devices the server no longer lists are deleted, names of the others follow the server,
   * and each new device gets a ping and its group hellos. ownDevice is set when the user is this device's own, whose
   * conversation is local. The effects owe exactly one signal, which the last of them carries; the callback ping goes
   * to the last device of the list, whether or not it is a new one.
   */
  method RescanUserDevicesCommand(ticket: Ticket, ownDevice: Option<string>, server: Option<seq<ServerDevice>>,
                                  known: map<string, Conversation>, local: Conversation, hellos: string -> nat)
    returns (after: map<string, Conversation>, localAfter: Conversation, effects: seq<Effect>)
    ensures IsPlan(ReScanUserDevices(ticket), effects)
    ensures NoDevices(server) ==>
              after == known && localAfter == local && effects == [Signal(ReScanAction, Some(ticket))]
    ensures !NoDevices(server) ==>
              var devices := server.value;
              var unknown := NewDevices(devices, after.Keys, ownDevice);
              && after.Keys == known.Keys * Ids(devices)
              && after == NamesFollowed(Listed(known, devices), devices, |devices|, ownDevice)
              && localAfter == LocalFollowed(local, devices, |devices|, ownDevice)
              && effects == if unknown == [] then [Signal(ReScanAction, Some(ticket))]
                            else PingsTo(unknown, hellos) +
                                 [Enqueue(SendMessage(devices[|devices| - 1].id, ReScanAction, Some(ticket)))]
    ensures !NoDevices(server) ==> Addresses(effects, ticket, ownDevice, server.value, known.Keys, hellos)
    ensures !NoDevices(server) ==>
              && (forall id <- after :: after[id] == TakesName(known[id], id, server.value, ownDevice != Some(id)))
              && localAfter == if ownDevice.None? then local
                               else TakesName(local, ownDevice.value, server.value, true)
  {
    after, localAfter, effects := known, local, [Signal(ReScanAction, Some(ticket))];
    if NoDevices(server) {
      return;
    }
    var devices := server.value;
    after := DeleteUnlisted(devices, known);
    ghost var unknown := NewDevices(devices, after.Keys, ownDevice);
    EffectsAddress(devices, known.Keys, after.Keys, ownDevice, hellos, ticket);
    var pings, counter, deviceId;
    after, localAfter, pings, counter, deviceId := UpdateKnownAndPingNew(devices, ownDevice, after, local, hellos);
    if counter > 0 {
      PingsArePings(unknown, hellos);
      effects := pings + [Enqueue(SendMessage(deviceId, ReScanAction, Some(ticket)))];
      assert effects[..|effects| - 1] == pings;
    }
  }

  /** A stored conversation of a listed device that can be loaded has the name listed last, all else as it was. */
  function TakesName(c: Conversation, id: string, devices: seq<ServerDevice>, follows: bool): Conversation {
    if follows && c.valid && NameListed(devices, |devices|, id).Some?
    then Conversation(NameListed(devices, |devices|, id).value, true, c.hasRatchet) else c
  }

  function Listed(known: map<string, Conversation>, devices: seq<ServerDevice>): map<string, Conversation> {
    map id | id in known && id in Ids(devices) :: known[id]
  }

  /** The name that the first n devices give last for the id. */
  function NameListed(devices: seq<ServerDevice>, n: nat, id: string): Option<string>
    requires n <= |devices|
  {
    if n == 0 then None
    else if devices[n - 1].id == id then Some(devices[n - 1].name) else NameListed(devices, n - 1, id)
  }

  /** An id has a name exactly when it is listed, and for an entry without a later one of its id that entry's name. */
  lemma {:induction false} NameListedMeaning(devices: seq<ServerDevice>, n: nat, id: string)
    requires n <= |devices|
    ensures NameListed(devices, n, id).Some? <==> id in Ids(devices[..n])
    ensures forall k | 0 <= k < n && devices[k].id == id && id !in Ids(devices[k + 1..n]) ::
              NameListed(devices, n, id) == Some(devices[k].name)
  {
    if n > 0 {
      NameListedMeaning(devices, n - 1, id);
      assert devices[..n] == devices[..n - 1] + [devices[n - 1]];
      forall k | 0 <= k < n && devices[k].id == id && id !in Ids(devices[k + 1..n])
        ensures NameListed(devices, n, id) == Some(devices[k].name)
      {
        if k < n - 1 {
          assert devices[k + 1..n] == devices[k + 1..n - 1] + [devices[n - 1]];
          assert devices[n - 1] in devices[k + 1..n];
        }
      }
    }
  }

  /** The conversations with the names of the first n devices, except for this device's own. */
  function NamesFollowed(known: map<string, Conversation>, devices: seq<ServerDevice>, n: nat,
                         ownDevice: Option<string>): map<string, Conversation>
    requires n <= |devices|
  {
    map id | id in known ::
      var name := NameListed(devices, n, id);
      if ownDevice != Some(id) && name.Some? then Renamed(known[id], name.value) else known[id]
  }

  /** The local conversation with the name listed for this device. */
  function LocalFollowed(local: Conversation, devices: seq<ServerDevice>, n: nat, ownDevice: Option<string>)
    : Conversation
    requires n <= |devices|
  {
    var name := if ownDevice.Some? then NameListed(devices, n, ownDevice.value) else None;
    if name.Some? then Renamed(local, name.value) else local
  }

  function Visited(known: map<string, Conversation>, d: ServerDevice, ownDevice: Option<string>)
    : map<string, Conversation>
  {
    if ownDevice != Some(d.id) && d.id in known then known[d.id := Renamed(known[d.id], d.name)] else known
  }

  function LocalVisited(local: Conversation, d: ServerDevice, ownDevice: Option<string>): Conversation {
    if ownDevice == Some(d.id) then Renamed(local, d.name) else local
  }

  lemma LocalVisitedFollows(local: Conversation, devices: seq<ServerDevice>, i: nat, ownDevice: Option<string>)
    requires i < |devices|
    ensures LocalVisited(LocalFollowed(local, devices, i, ownDevice), devices[i], ownDevice) ==
            LocalFollowed(local, devices, i + 1, ownDevice)
  {
  }

  lemma VisitedFollows(known: map<string, Conversation>, devices: seq<ServerDevice>, i: nat, ownDevice: Option<string>)
    requires i < |devices|
    ensures Visited(NamesFollowed(known, devices, i, ownDevice), devices[i], ownDevice) ==
            NamesFollowed(known, devices, i + 1, ownDevice)
  {
  }

  /** The body of the loop below: this device itself and known devices are not new; they take the listed name. */
  method VisitDevice(known: map<string, Conversation>, local: Conversation, device: ServerDevice,
                     ownDevice: Option<string>)
    returns (after: map<string, Conversation>, localAfter: Conversation, isNew: bool)
    ensures after == Visited(known, device, ownDevice)
    ensures localAfter == LocalVisited(local, device, ownDevice)
    ensures isNew <==> IsNew(device, known.Keys, ownDevice)
  {
    after, localAfter, isNew := known, local, false;
    if ownDevice == Some(device.id) {
      if local.valid {
        if device.name != local.deviceName {
          localAfter := local.(deviceName := device.name);
        }
      }
      return;
    }
    if device.id in known {
      var conv := known[device.id];
      assert known[device.id := conv] == known;
      if conv.valid {
        if device.name != conv.deviceName {
          after := known[device.id := conv.(deviceName := device.name)];
        }
      }
      return;
    }
    isNew := true;
  }

  /** The loop over the server's list: known devices take the listed name, new ones are pinged. */
  method UpdateKnownAndPingNew(devices: seq<ServerDevice>, ownDevice: Option<string>, known: map<string, Conversation>,
                               local: Conversation, hellos: string -> nat)
    returns (after: map<string, Conversation>, localAfter: Conversation, pings: seq<Effect>, counter: nat,
             deviceId: string)
    ensures after.Keys == known.Keys
    ensures devices != [] ==> deviceId == devices[|devices| - 1].id
    ensures pings == PingsTo(NewDevices(devices, known.Keys, ownDevice), hellos)
    ensures counter == |NewDevices(devices, known.Keys, ownDevice)|
    ensures after == NamesFollowed(known, devices, |devices|, ownDevice)
    ensures localAfter == LocalFollowed(local, devices, |devices|, ownDevice)
  {
    after, localAfter, pings, counter, deviceId := known, local, [], 0, "";
    for i := 0 to |devices|
      invariant after.Keys == known.Keys
      invariant i > 0 ==> deviceId == devices[i - 1].id
      invariant pings == PingsTo(NewDevicesTo(devices, i, known.Keys, ownDevice), hellos)
      invariant counter == |NewDevicesTo(devices, i, known.Keys, ownDevice)|
      invariant after == NamesFollowed(known, devices, i, ownDevice)
      invariant localAfter == LocalFollowed(local, devices, i, ownDevice)
    {
      VisitedFollows(known, devices, i, ownDevice);
      LocalVisitedFollows(local, devices, i, ownDevice);
      PingsToNew(devices, i, known.Keys, ownDevice, hellos);
      deviceId := devices[i].id;
      var isNew;
      after, localAfter, isNew := VisitDevice(after, localAfter, devices[i], ownDevice);
      if isNew {
        pings := pings + PingAndHellos(deviceId, hellos);
        counter := counter + 1;
      }
    }
  }

  method DeleteUnlisted(devices: seq<ServerDevice>, known: map<string, Conversation>)
    returns (after: map<string, Conversation>)
    ensures after == Listed(known, devices)
  {
    after := known;
    var rest := known.Keys;
    while rest != {}
      invariant rest <= known.Keys
      invariant forall id <- known :: id in after <==> id in rest || id in Ids(devices)
      invariant after.Keys <= known.Keys && forall id <- after :: after[id] == known[id]
    {
      var id :| id in rest;
      rest := rest - {id};
      var found := false;
      for i := 0 to |devices|
        invariant found ==> id in Ids(devices)
        invariant !found ==> forall k | 0 <= k < i :: devices[k].id != id
      {
        if devices[i].id == id {
          found := true;
          break;
        }
      }
      if !found {
        after := after - {id};
      }
    }
  }

  /** The conversation can be loaded, and its reset form stored. */
  predicate CanReset(ready: bool, stored: bool, known: map<string, Conversation>, deviceId: string) {
    ready && deviceId in known && known[deviceId].valid && stored
  }

  /**
   * Re-key: the conversation loses its ratchet state; it is deleted when the server no longer lists the device, and all
   * of the user's conversations are when the server lists none. Only for a listed device a ping carries the signal,
   * else it is raised at once.
   */
  method ReKeyDeviceCommand(ticket: Ticket, deviceId: string, ready: bool, stored: bool,
                            server: Option<seq<ServerDevice>>, known: map<string, Conversation>)
    returns (after: map<string, Conversation>, effects: seq<Effect>)
    ensures IsPlan(ReKeyDevice(ticket), effects)
    ensures !ready || !stored || deviceId !in known || !known[deviceId].valid ==>
              after == known && effects == [Signal(ReKeyAction, Some(ticket))]
    ensures effects == [Enqueue(SendMessage(deviceId, ReKeyAction, Some(ticket)))] <==>
            CanReset(ready, stored, known, deviceId) && server.Some? && deviceId in Ids(server.value)
    ensures after == if !CanReset(ready, stored, known, deviceId) then known
                     else if NoDevices(server) then map[]
                     else if deviceId !in Ids(server.value) then known - {deviceId}
                     else known[deviceId := known[deviceId].(hasRatchet := false)]
  {
    after, effects := known, [Signal(ReKeyAction, Some(ticket))];
    if !ready {
      return;
    }
    if deviceId !in known || !known[deviceId].valid {
      return;
    }
    var conv := known[deviceId].(hasRatchet := false);
    if !stored {
      return;
    }
    after := known[deviceId := conv];
    if NoDevices(server) {
      after := map[];
      return;
    }
    var deviceFound := false;
    for i := 0 to |server.value|
      invariant !deviceFound
      invariant forall k | 0 <= k < i :: server.value[k].id != deviceId
    {
      if deviceId == server.value[i].id {
        deviceFound := true;
        break;
      }
    }
    if !deviceFound {
      after := after - {deviceId};
      return;
    }
    effects := [Enqueue(SendMessage(deviceId, ReKeyAction, Some(ticket)))];
  }
}
