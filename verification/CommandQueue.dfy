/**
 * The command run-queue and the re-key and re-scan handshake, as steps between lock operations: producers append
 * under the queue lock, one handler thread processes the front command without it, callers wait for a done flag.
 */
module CommandQueue {
  import opened Wrappers

  /** The callback field of a message is an integer; every value but the first three is unknown. */
  datatype Action = NoAction | ReKeyAction | ReScanAction | UnknownAction

  /** Identifies one call of reKeyDevice or rescanUserDevices. */
  type Ticket = nat

  /** A message is labelled with the call it was queued for, if any; the label is not part of the source. */
  datatype Command =
    | SendMessage(deviceId: string, action: Action, call: Option<Ticket>)
    | ReKeyDevice(ticket: Ticket)
    | ReScanUserDevices(ticket: Ticket)
    | OtherCommand                      // received data, identity key flags, retry checks

  /** The done signal of one call. */
  datatype Token = Token(action: Action, ticket: Ticket)

  /** What the handler does while it works on a command: append another command, or run the callback of a message. */
  datatype Effect = Enqueue(c: Command) | Signal(action: Action, call: Option<Ticket>)

  datatype Handler = NotStarted | Starting | Sleeping | Working(todo: seq<Effect>)

  /** A caller holds the lock of its kind for the whole call. */
  datatype Call = NoCall | Begun(ticket: Ticket) | Waiting(ticket: Ticket)

  datatype RunQueue = RunQueue(
    commands: seq<Command>,
    handler: Handler,
    wakeUp: bool,                       // a notification the sleeping handler has not yet acted on
    batches: seq<seq<Command>>,         // everything appended so far
    completed: seq<Command>)

  datatype Callers = Callers(
    reKey: Call, reScan: Call,
    reKeyDone: bool, reScanDone: bool,
    nextTicket: Ticket,
    issued: multiset<Token>,            // signals the submitted commands call for
    signals: multiset<Token>)           // those of them raised so far
  {
    function CallOf(a: Action): Call {
      if a == ReKeyAction then reKey else reScan
    }

    function Done(a: Action): bool {
      if a == ReKeyAction then reKeyDone else reScanDone
    }

    function WithCall(a: Action, c: Call): Callers {
      if a == ReKeyAction then this.(reKey := c) else this.(reScan := c)
    }

    function WithDone(a: Action, done: bool): Callers {
      match a
      case ReKeyAction => this.(reKeyDone := done)
      case ReScanAction => this.(reScanDone := done)
      case _ => this
    }
  }

  datatype System = System(queue: RunQueue, callers: Callers)

  const INITIAL: System :=
    System(RunQueue([], NotStarted, false, [], []), Callers(NoCall, NoCall, false, false, 0, multiset{}, multiset{}))

  // ---------- Steps ----------

  function Started(q: RunQueue): RunQueue {
    if q.handler == NotStarted then q.(handler := Starting) else q
  }

  /** Appends a batch and notifies: a sleeping handler will wake up. */
  function Appended(q: RunQueue, cs: seq<Command>): RunQueue {
    q.(commands := q.commands + cs, wakeUp := q.wakeUp || q.handler == Sleeping, batches := q.batches + [cs])
  }

  /** The handler holds the queue lock: it takes up the front command, or waits for one. */
  function TakenUp(q: RunQueue, plan: seq<Effect>): RunQueue {
    q.(handler := if q.commands == [] then Sleeping else Working(plan), wakeUp := false)
  }

  function FrontPopped(q: RunQueue): RunQueue
    requires q.commands != []
  {
    q.(completed := q.completed + [q.commands[0]], commands := q.commands[1..])
  }

  function CommandOf(a: Action, t: Ticket): Command {
    if a == ReKeyAction then ReKeyDevice(t) else ReScanUserDevices(t)
  }

  function CallBegun(c: Callers, a: Action): Callers {
    c.WithCall(a, Begun(c.nextTicket)).WithDone(a, false).(nextTicket := c.nextTicket + 1)
  }

  function CallSubmitted(c: Callers, a: Action, t: Ticket): Callers {
    c.WithCall(a, Waiting(t)).(issued := c.issued + multiset{Token(a, t)})
  }

  /** The callback of a message: it raises the flag of its kind, for whichever call it was queued. */
  function Signalled(c: Callers, a: Action, call: Option<Ticket>): Callers {
    c.WithDone(a, true).(signals := c.signals + TokensOfCallback(a, call))
  }

  function EffectDone(s: System): System
    requires s.queue.handler.Working? && s.queue.handler.todo != []
  {
    var e, q := s.queue.handler.todo[0], s.queue.(handler := Working(s.queue.handler.todo[1..]));
    match e
    case Enqueue(c) => s.(queue := Appended(q, [c]))
    case Signal(a, call) => System(q, Signalled(s.callers, a, call))
  }

  datatype Event =
    | Start                             // whoever is about to append makes sure that the thread runs
    | Produce(cs: seq<Command>)         // any other producer appends one command or a batch
    | Begin(a: Action)                  // a caller takes the lock of its kind and clears the flag
    | Submit(a: Action)                 // it appends its command and starts to wait
    | Return(a: Action)                 // it sees the flag and returns
    | Wake(plan: seq<Effect>)           // the handler starts, or wakes up, notified or spuriously
    | Act                               // the handler carries out one effect of the command
    | Next(plan: seq<Effect>)           // the command is done: pop it and take up the next

  predicate IsCallAction(a: Action) {
    a == ReKeyAction || a == ReScanAction
  }

  ghost predicate Enabled(s: System, e: Event) {
    match e
    case Start => true
    case Produce(cs) => s.queue.handler != NotStarted && forall c <- cs :: IsProduced(c)
    case Begin(a) => IsCallAction(a) && s.callers.CallOf(a) == NoCall
    case Submit(a) => s.queue.handler != NotStarted && IsCallAction(a) && s.callers.CallOf(a).Begun?
    case Return(a) => IsCallAction(a) && s.callers.CallOf(a).Waiting? && s.callers.Done(a)
    case Wake(plan) =>
      && (s.queue.handler == Starting || s.queue.handler == Sleeping)
      && (s.queue.commands != [] ==> IsPlan(s.queue.commands[0], plan))
    case Act => s.queue.handler.Working? && s.queue.handler.todo != []
    case Next(plan) =>
      && s.queue.handler == Working([]) && s.queue.commands != []
      && (|s.queue.commands| > 1 ==> IsPlan(s.queue.commands[1], plan))
  }

  ghost function Step(s: System, e: Event): System {
    if !Enabled(s, e) then s
    else
      match e
      case Start => s.(queue := Started(s.queue))
      case Produce(cs) => s.(queue := Appended(s.queue, cs))
      case Begin(a) => s.(callers := CallBegun(s.callers, a))
      case Submit(a) =>
        var t := s.callers.CallOf(a).ticket;
        System(Appended(s.queue, [CommandOf(a, t)]), CallSubmitted(s.callers, a, t))
      case Return(a) => s.(callers := s.callers.WithCall(a, NoCall))
      case Wake(plan) => s.(queue := TakenUp(s.queue, plan))
      case Act => EffectDone(s)
      case Next(plan) => s.(queue := TakenUp(FrontPopped(s.queue), plan))
  }

  ghost function Run(es: seq<Event>): System {
    if es == [] then INITIAL else Step(Run(es[..|es| - 1]), es[|es| - 1])
  }

  // ---------- What the commands do ----------

  /**
   * What producers other than the two calls append. The callback field of the messages they prepare is never set, so
   * it holds any value.
   */
  predicate IsProduced(c: Command) {
    c.OtherCommand? || (c.SendMessage? && c.call == None)
  }

  predicate IsPing(e: Effect) {
    e.Enqueue? && e.c.SendMessage? && e.c.action == NoAction && e.c.call == None
  }

  /**
   * The courses a command can take. Re-keying either ends at once with its signal or appends a ping that will raise
   * it; re-scanning signals at once, or appends pings and group messages of which only the last carries the callback.
   */
  ghost predicate IsPlan(c: Command, plan: seq<Effect>) {
    match c
    case SendMessage(_, a, call) => plan == if a == NoAction then [] else [Signal(a, call)]
    case ReKeyDevice(t) =>
      || plan == [Signal(ReKeyAction, Some(t))]
      || (|plan| == 1 && IsCallbackPing(plan[0], ReKeyAction, t))
    case ReScanUserDevices(t) =>
      || plan == [Signal(ReScanAction, Some(t))]
      || (&& |plan| > 1 && (forall e <- plan[..|plan| - 1] :: IsPing(e))
          && IsCallbackPing(plan[|plan| - 1], ReScanAction, t))
    case OtherCommand => forall e <- plan :: e.Enqueue? && IsProduced(e.c)
  }

  predicate IsCallbackPing(e: Effect, a: Action, t: Ticket) {
    e.Enqueue? && e.c.SendMessage? && e.c.action == a && e.c.call == Some(t)
  }

  // ---------- Done signals still to come ----------

  /** The signal a callback raises for the call it was queued for. */
  function TokensOfCallback(a: Action, call: Option<Ticket>): multiset<Token> {
    if IsCallAction(a) && call.Some? then multiset{Token(a, call.value)} else multiset{}
  }

  /** The signal a command still owes its caller. */
  function TokensOf(c: Command): multiset<Token> {
    match c
    case SendMessage(_, a, call) => TokensOfCallback(a, call)
    case ReKeyDevice(t) => multiset{Token(ReKeyAction, t)}
    case ReScanUserDevices(t) => multiset{Token(ReScanAction, t)}
    case OtherCommand => multiset{}
  }

  function TokensIn(cs: seq<Command>): multiset<Token> {
    if cs == [] then multiset{} else TokensOf(cs[0]) + TokensIn(cs[1..])
  }

  function TokensOfEffect(e: Effect): multiset<Token> {
    match e
    case Enqueue(c) => TokensOf(c)
    case Signal(a, call) => TokensOfCallback(a, call)
  }

  function TokensToDo(todo: seq<Effect>): multiset<Token> {
    if todo == [] then multiset{} else TokensOfEffect(todo[0]) + TokensToDo(todo[1..])
  }

  /** Signals owed: by the effects left of the front command, and by the commands behind it. */
  function OwedBy(h: Handler, cs: seq<Command>): multiset<Token> {
    if h.Working? && cs != [] then TokensToDo(h.todo) + TokensIn(cs[1..]) else TokensIn(cs)
  }

  function Owed(s: System): multiset<Token> {
    OwedBy(s.queue.handler, s.queue.commands)
  }

  lemma {:induction false} TokensInAppend(a: seq<Command>, b: seq<Command>)
    ensures TokensIn(a + b) == TokensIn(a) + TokensIn(b)
  {
    if a == [] {
      assert a + b == b;
    } else {
      assert (a + b)[1..] == a[1..] + b;
      TokensInAppend(a[1..], b);
    }
  }

  lemma {:induction false} TokenFree(cs: seq<Command>)
    requires forall c <- cs :: IsProduced(c)
    ensures TokensIn(cs) == multiset{}
  {
    if cs != [] {
      assert IsProduced(cs[0]);
      TokenFree(cs[1..]);
    }
  }

  /** Whatever course a command takes, it passes on exactly the signal it owes. */
  lemma {:induction false} PlanOwesWhatCommandOwes(c: Command, plan: seq<Effect>)
    requires IsPlan(c, plan)
    ensures TokensToDo(plan) == TokensOf(c)
  {
    if |plan| == 1 {
      OneEffect(plan[0]);
    } else if c.ReScanUserDevices? {
      PingsOweNothing(plan, c.ticket);
    } else if c.OtherCommand? && plan != [] {
      PlanOwesWhatCommandOwes(c, plan[1..]);
    }
  }

  lemma OneEffect(f: Effect)
    ensures TokensToDo([f]) == TokensOfEffect(f)
  {
    assert [f][1..] == [];
  }

  lemma {:induction false} PingsOweNothing(plan: seq<Effect>, t: Ticket)
    requires plan != [] && (forall e <- plan[..|plan| - 1] :: IsPing(e))
    requires IsCallbackPing(plan[|plan| - 1], ReScanAction, t)
    ensures TokensToDo(plan) == multiset{Token(ReScanAction, t)}
  {
    var init, tail := plan[..|plan| - 1], plan[1..];
    if tail != [] {
      assert init[0] == plan[0] && IsPing(init[0]);
      assert tail[..|tail| - 1] == init[1..];
      PingsOweNothing(tail, t);
    }
  }

  // ---------- Invariants ----------

  function Flat(batches: seq<seq<Command>>): seq<Command> {
    if batches == [] then [] else Flat(batches[..|batches| - 1]) + batches[|batches| - 1]
  }

  /** Nothing is lost, duplicated or reordered, and the handler never sleeps through work. */
  ghost predicate QueueIsSound(q: RunQueue) {
    && q.completed + q.commands == Flat(q.batches)
    && (q.handler == NotStarted ==> q.commands == [])
    && (q.handler.Working? ==> q.commands != [])
    && (q.handler == Sleeping && q.commands != [] ==> q.wakeUp)
  }

  /** Every issued signal is raised or still owed, tickets are issued once, and a raised signal's flag is up. */
  ghost predicate CallersAreSound(c: Callers, owed: multiset<Token>) {
    && Balanced(c.issued, c.signals, owed, c.nextTicket)
    && CallIsIssued(ReKeyAction, c.reKey, c.reKeyDone, c.issued, owed, c.nextTicket)
    && CallIsIssued(ReScanAction, c.reScan, c.reScanDone, c.issued, owed, c.nextTicket)
  }

  ghost predicate Balanced(issued: multiset<Token>, signals: multiset<Token>, owed: multiset<Token>, next: Ticket) {
    && issued == signals + owed
    && (forall token <- issued :: issued[token] == 1 && token.ticket < next && IsCallAction(token.action))
  }

  ghost predicate CallIsIssued(a: Action, call: Call, done: bool, issued: multiset<Token>, owed: multiset<Token>,
                               next: Ticket)
  {
    match call
    case NoCall => true
    case Begun(t) => t < next && Token(a, t) !in issued
    case Waiting(t) => t < next && Token(a, t) in issued && (Token(a, t) !in owed ==> done)
  }

  lemma AppendedIsSound(q: RunQueue, cs: seq<Command>)
    requires QueueIsSound(q) && q.handler != NotStarted
    ensures QueueIsSound(Appended(q, cs))
  {
  }

  lemma AppendedOwes(q: RunQueue, more: seq<Command>)
    requires q.handler.Working? ==> q.commands != []
    ensures OwedBy(Appended(q, more).handler, q.commands + more) == OwedBy(q.handler, q.commands) + TokensIn(more)
  {
    var cs := q.commands;
    if q.handler.Working? {
      assert (cs + more)[1..] == cs[1..] + more;
      TokensInAppend(cs[1..], more);
      SumsAssociate(TokensToDo(q.handler.todo), TokensIn(cs[1..]), TokensIn(more));
    } else {
      TokensInAppend(cs, more);
    }
  }

  lemma SumsAssociate(a: multiset<Token>, b: multiset<Token>, c: multiset<Token>)
    ensures a + (b + c) == (a + b) + c
  {
  }

  lemma TakenUpIsSound(q: RunQueue, plan: seq<Effect>)
    requires q.completed + q.commands == Flat(q.batches)
    ensures QueueIsSound(TakenUp(q, plan))
  {
  }

  lemma TakenUpOwes(q: RunQueue, plan: seq<Effect>)
    requires q.commands != [] ==> IsPlan(q.commands[0], plan)
    ensures OwedBy(TakenUp(q, plan).handler, q.commands) == TokensIn(q.commands)
  {
    if q.commands != [] {
      PlanOwesWhatCommandOwes(q.commands[0], plan);
    }
  }

  lemma StepKeepsQueueSound(s: System, e: Event)
    requires QueueIsSound(s.queue)
    ensures QueueIsSound(Step(s, e).queue)
  {
    if Enabled(s, e) {
      var q := s.queue;
      match e {
        case Produce(cs) => AppendedIsSound(q, cs);
        case Submit(a) => AppendedIsSound(q, [CommandOf(a, s.callers.CallOf(a).ticket)]);
        case Wake(plan) => TakenUpIsSound(q, plan);
        case Act =>
          var q1 := q.(handler := Working(q.handler.todo[1..]));
          assert QueueIsSound(q1);
          if q.handler.todo[0].Enqueue? {
            AppendedIsSound(q1, [q.handler.todo[0].c]);
          }
        case Next(plan) =>
          assert q.completed + [q.commands[0]] + q.commands[1..] == q.completed + q.commands;
          TakenUpIsSound(FrontPopped(q), plan);
        case _ =>
      }
    }
  }

  /** Starting, producing, waking up and moving on change nothing about what is owed. */
  lemma QueueStepKeepsOwed(s: System, e: Event)
    requires QueueIsSound(s.queue) && Enabled(s, e) && (e.Start? || e.Produce? || e.Wake? || e.Next?)
    ensures Owed(Step(s, e)) == Owed(s) && Step(s, e).callers == s.callers
  {
    match e {
      case Start =>
      case Produce(cs) =>
        AppendedOwes(s.queue, cs);
        TokenFree(cs);
        assert OwedBy(s.queue.handler, s.queue.commands) + multiset{} == OwedBy(s.queue.handler, s.queue.commands);
      case Wake(plan) =>
        TakenUpOwes(s.queue, plan);
      case Next(plan) =>
        TakenUpOwes(FrontPopped(s.queue), plan);
        assert multiset{} + TokensIn(s.queue.commands[1..]) == TokensIn(s.queue.commands[1..]);
    }
  }

  lemma StepKeepsCallersSound(s: System, e: Event)
    requires QueueIsSound(s.queue) && CallersAreSound(s.callers, Owed(s))
    ensures CallersAreSound(Step(s, e).callers, Owed(Step(s, e)))
  {
    if Enabled(s, e) {
      match e {
        case Begin(a) =>
          BeginKeepsCallersSound(s.callers, a, Owed(s));
        case Submit(a) =>
          SubmitOwes(s, a);
          SubmitKeepsCallersSound(s.callers, a, s.callers.CallOf(a).ticket, Owed(s));
        case Return(a) =>
        case Act =>
          ActOwes(s);
          if s.queue.handler.todo[0].Signal? {
            var f := s.queue.handler.todo[0];
            SignalKeepsCallersSound(s.callers, f.action, f.call, Owed(Step(s, e)));
          }
        case _ =>
          QueueStepKeepsOwed(s, e);
      }
    }
  }

  lemma SubmitOwes(s: System, a: Action)
    requires QueueIsSound(s.queue) && Enabled(s, Submit(a))
    ensures Owed(Step(s, Submit(a))) == Owed(s) + multiset{Token(a, s.callers.CallOf(a).ticket)}
  {
    var c := CommandOf(a, s.callers.CallOf(a).ticket);
    AppendedOwes(s.queue, [c]);
    TokensOfOne(c);
  }

  lemma TokensOfOne(c: Command)
    ensures TokensIn([c]) == TokensOf(c)
  {
  }

  /** An effect hands on what it owes, or raises it. */
  lemma ActOwes(s: System)
    requires QueueIsSound(s.queue) && Enabled(s, Act)
    ensures var f := s.queue.handler.todo[0];
            Owed(s) == (if f.Signal? then TokensOfCallback(f.action, f.call) else multiset{}) + Owed(Step(s, Act))
  {
    var todo, cs := s.queue.handler.todo, s.queue.commands;
    var q := s.queue.(handler := Working(todo[1..]));
    FirstEffectOwes(todo, cs);
    if todo[0].Enqueue? {
      AppendedOwes(q, [todo[0].c]);
      TokensOfOne(todo[0].c);
    }
  }

  lemma FirstEffectOwes(todo: seq<Effect>, cs: seq<Command>)
    requires todo != [] && cs != []
    ensures OwedBy(Working(todo), cs) == TokensOfEffect(todo[0]) + OwedBy(Working(todo[1..]), cs)
  {
  }

  lemma BeginKeepsCallersSound(c: Callers, a: Action, owed: multiset<Token>)
    requires CallersAreSound(c, owed) && IsCallAction(a) && c.CallOf(a) == NoCall
    ensures CallersAreSound(CallBegun(c, a), owed)
  {
  }

  lemma SubmitKeepsCallersSound(c: Callers, a: Action, t: Ticket, owed: multiset<Token>)
    requires CallersAreSound(c, owed) && IsCallAction(a) && c.CallOf(a) == Begun(t)
    ensures CallersAreSound(CallSubmitted(c, a, t), owed + multiset{Token(a, t)})
  {
    var token := Token(a, t);
    assert Balanced(c.issued + multiset{token}, c.signals, owed + multiset{token}, c.nextTicket);
    assert forall x <- owed + multiset{token} :: x == token || x in owed;
  }

  lemma SignalKeepsCallersSound(c: Callers, a: Action, call: Option<Ticket>, rest: multiset<Token>)
    requires CallersAreSound(c, TokensOfCallback(a, call) + rest)
    ensures CallersAreSound(Signalled(c, a, call), rest)
  {
    var owed := TokensOfCallback(a, call) + rest;
    if IsCallAction(a) && call.Some? {
      var token := Token(a, call.value);
      OwedOnce(c.issued, c.signals, rest, token, c.nextTicket);
      assert token in owed && forall x <- rest :: x in owed;
      assert forall x <- owed :: x == token || x in rest;
    } else {
      assert owed == rest && c.signals + multiset{} == c.signals;
    }
  }

  lemma OwedOnce(issued: multiset<Token>, signals: multiset<Token>, rest: multiset<Token>, token: Token, next: Ticket)
    requires Balanced(issued, signals, multiset{token} + rest, next)
    ensures Balanced(issued, signals + multiset{token}, rest, next)
    ensures token !in rest && IsCallAction(token.action)
  {
  }

  // ---------- Stray callbacks ----------

  /** A message that was queued for no call, but whose callback would raise a flag all the same. */
  predicate IsStray(c: Command) {
    c.SendMessage? && c.call == None && IsCallAction(c.action)
  }

  predicate IsStrayEffect(e: Effect) {
    match e
    case Enqueue(c) => IsStray(c)
    case Signal(a, call) => call == None && IsCallAction(a)
  }

  predicate AppendsStray(e: Event) {
    match e
    case Produce(cs) => exists c <- cs :: IsStray(c)
    case Wake(plan) => exists f <- plan :: f.Enqueue? && IsStray(f.c)
    case Next(plan) => exists f <- plan :: f.Enqueue? && IsStray(f.c)
    case _ => false
  }

  predicate IsQuiet(q: RunQueue) {
    && (forall c <- q.commands :: !IsStray(c))
    && (q.handler.Working? ==> forall e <- q.handler.todo :: !IsStrayEffect(e))
  }

  /** Without strays a flag reports its own call only. */
  ghost predicate FlagsAreOwn(c: Callers, owed: multiset<Token>) {
    && FlagIsOwn(ReKeyAction, c.reKey, c.reKeyDone, owed)
    && FlagIsOwn(ReScanAction, c.reScan, c.reScanDone, owed)
  }

  ghost predicate FlagIsOwn(a: Action, call: Call, done: bool, owed: multiset<Token>) {
    match call
    case NoCall => forall token <- owed :: token.action != a
    case Begun(t) => !done && forall token <- owed :: token.action != a
    case Waiting(t) =>
      (forall token <- owed :: token.action == a ==> token.ticket == t) && (done ==> Token(a, t) !in owed)
  }

  lemma StepKeepsQuiet(s: System, e: Event)
    requires IsQuiet(s.queue) && !AppendsStray(e)
    ensures IsQuiet(Step(s, e).queue)
  {
    if Enabled(s, e) {
      match e {
        case Wake(plan) => PlanIsQuiet(s.queue.commands, plan);
        case Next(plan) => PlanIsQuiet(s.queue.commands[1..], plan);
        case Act =>
          var todo := s.queue.handler.todo;
          assert !IsStrayEffect(todo[0]) && forall f <- todo[1..] :: f in todo;
        case _ =>
      }
    }
  }

  lemma PlanIsQuiet(cs: seq<Command>, plan: seq<Effect>)
    requires forall c <- cs :: !IsStray(c)
    requires cs != [] ==> IsPlan(cs[0], plan)
    requires forall f <- plan :: f.Enqueue? ==> !IsStray(f.c)
    ensures cs != [] ==> forall f <- plan :: !IsStrayEffect(f)
  {
    if cs != [] {
      assert !IsStray(cs[0]);
      forall f | f in plan && f.Signal?
        ensures !IsStrayEffect(f)
      {
        var i :| 0 <= i < |plan| && plan[i] == f;
        match cs[0]
        case SendMessage(_, a, call) => assert f == Signal(a, call);
        case ReKeyDevice(t) => assert i == 0;
        case ReScanUserDevices(t) =>
          if |plan| > 1 {
            assert i < |plan| - 1 ==> plan[..|plan| - 1][i] == f && IsPing(f);
          } else {
            assert plan[0] == Signal(ReScanAction, Some(t));
          }
        case OtherCommand =>
      }
    }
  }

  lemma StepKeepsFlagsOwn(s: System, e: Event)
    requires QueueIsSound(s.queue) && CallersAreSound(s.callers, Owed(s))
    requires IsQuiet(s.queue) && FlagsAreOwn(s.callers, Owed(s))
    ensures FlagsAreOwn(Step(s, e).callers, Owed(Step(s, e)))
  {
    if Enabled(s, e) {
      match e {
        case Begin(a) =>
          BeginKeepsFlagsOwn(s.callers, a, Owed(s));
        case Submit(a) =>
          SubmitOwes(s, a);
          SubmitKeepsFlagsOwn(s.callers, a, s.callers.CallOf(a).ticket, Owed(s));
        case Return(a) =>
          ReturnKeepsFlagsOwn(s.callers, a, Owed(s));
        case Act =>
          ActKeepsFlagsOwn(s);
        case _ =>
          QueueStepKeepsOwed(s, e);
      }
    }
  }

  lemma ActKeepsFlagsOwn(s: System)
    requires Enabled(s, Act) && QueueIsSound(s.queue) && CallersAreSound(s.callers, Owed(s))
    requires IsQuiet(s.queue) && FlagsAreOwn(s.callers, Owed(s))
    ensures FlagsAreOwn(Step(s, Act).callers, Owed(Step(s, Act)))
  {
    ActOwes(s);
    var f := s.queue.handler.todo[0];
    assert !IsStrayEffect(f);
    if f.Signal? {
      SignalKeepsFlagsOwn(s.callers, f.action, f.call, Owed(Step(s, Act)));
    }
  }

  lemma BeginKeepsFlagsOwn(c: Callers, a: Action, owed: multiset<Token>)
    requires FlagsAreOwn(c, owed) && IsCallAction(a) && c.CallOf(a) == NoCall
    ensures FlagsAreOwn(CallBegun(c, a), owed)
  {
  }

  lemma SubmitKeepsFlagsOwn(c: Callers, a: Action, t: Ticket, owed: multiset<Token>)
    requires FlagsAreOwn(c, owed) && IsCallAction(a) && c.CallOf(a) == Begun(t)
    ensures FlagsAreOwn(CallSubmitted(c, a, t), owed + multiset{Token(a, t)})
  {
    assert forall x <- owed + multiset{Token(a, t)} :: x == Token(a, t) || x in owed;
  }

  lemma ReturnKeepsFlagsOwn(c: Callers, a: Action, owed: multiset<Token>)
    requires FlagsAreOwn(c, owed) && IsCallAction(a) && c.CallOf(a).Waiting? && c.Done(a)
    ensures FlagsAreOwn(c.WithCall(a, NoCall), owed)
  {
    assert forall x <- owed :: x.action == a ==> x == Token(a, c.CallOf(a).ticket);
  }

  lemma SignalKeepsFlagsOwn(c: Callers, a: Action, call: Option<Ticket>, rest: multiset<Token>)
    requires CallersAreSound(c, TokensOfCallback(a, call) + rest) && FlagsAreOwn(c, TokensOfCallback(a, call) + rest)
    requires IsCallAction(a) ==> call.Some?
    ensures FlagsAreOwn(Signalled(c, a, call), rest)
  {
    var owed := TokensOfCallback(a, call) + rest;
    if IsCallAction(a) {
      var token := Token(a, call.value);
      OwedOnce(c.issued, c.signals, rest, token, c.nextTicket);
      assert token in owed && forall x <- rest :: x in owed;
      assert forall x <- owed :: x == token || x in rest;
    } else {
      assert owed == rest;
    }
  }

  // ---------- Main results ----------

  /** Whatever other threads do once the thread is started, commands can be appended. */
  lemma {:induction false} StartedStays(es: seq<Event>, fs: seq<Event>, cs: seq<Command>)
    requires forall c <- cs :: IsProduced(c)
    ensures Enabled(Run(es + [Start] + fs), Produce(cs))
  {
    if fs == [] {
      assert es + [Start] + fs == es + [Start];
      RunOneMore(es, Start);
    } else {
      var init, f := fs[..|fs| - 1], fs[|fs| - 1];
      assert es + [Start] + fs == es + [Start] + init + [f];
      StartedStays(es, init, cs);
      RunOneMore(es + [Start] + init, f);
    }
  }

  lemma {:induction false} RunIsSound(es: seq<Event>)
    ensures QueueIsSound(Run(es).queue) && CallersAreSound(Run(es).callers, Owed(Run(es)))
  {
    if es != [] {
      RunIsSound(es[..|es| - 1]);
      StepKeepsQueueSound(Run(es[..|es| - 1]), es[|es| - 1]);
      StepKeepsCallersSound(Run(es[..|es| - 1]), es[|es| - 1]);
    }
  }

  lemma {:induction false} QuietRunKeepsFlagsOwn(es: seq<Event>)
    requires forall e <- es :: !AppendsStray(e)
    ensures IsQuiet(Run(es).queue) && FlagsAreOwn(Run(es).callers, Owed(Run(es)))
  {
    if es != [] {
      var init, e := es[..|es| - 1], es[|es| - 1];
      RunIsSound(init);
      QuietRunKeepsFlagsOwn(init);
      StepKeepsQuiet(Run(init), e);
      StepKeepsFlagsOwn(Run(init), e);
    }
  }

  /**
   * Under every interleaving the completed commands followed by the queue are the enqueued batches in order: each
   * command is handled once and in order, a batch stays contiguous, and a handler asleep beside a command has a
   * wake-up coming.
   */
  lemma QueueKeepsHistory(es: seq<Event>)
    ensures var q := Run(es).queue;
            && q.completed + q.commands == Flat(q.batches)
            && (q.commands != [] ==> q.handler.Working? || q.handler == Starting || (q.handler == Sleeping && q.wakeUp))
  {
    RunIsSound(es);
  }

  /**
   * Every submitted re-key or re-scan is signalled exactly once, or its one signal is still owed by the queue. No
   * message of another producer takes part, whatever its callback field holds.
   */
  lemma EveryCallIsSignalledOnce(es: seq<Event>, token: Token)
    ensures var s := Run(es);
            && (token in s.callers.issued ==> s.callers.signals[token] + Owed(s)[token] == 1)
            && (token !in s.callers.issued ==> s.callers.signals[token] == 0)
            && (s.queue.commands == [] && token in s.callers.issued ==> s.callers.signals[token] == 1)
  {
    RunIsSound(es);
    var s := Run(es);
    assert s.callers.issued[token] == s.callers.signals[token] + Owed(s)[token];
    if s.queue.commands == [] {
      assert Owed(s) == multiset{};
    }
  }

  /** A waiting call whose own command is done finds its flag up; so does every one once the queue is drained. */
  lemma SignalledCallMayReturn(es: seq<Event>, a: Action)
    requires IsCallAction(a) && Run(es).callers.CallOf(a).Waiting?
    ensures var s := Run(es); var own := Token(a, s.callers.CallOf(a).ticket);
            && (s.callers.signals[own] == 1 || s.queue.commands == [] ==> s.callers.Done(a))
            && (!s.callers.Done(a) ==> Owed(s)[own] == 1)
  {
    RunIsSound(es);
    EveryCallIsSignalledOnce(es, Token(a, Run(es).callers.CallOf(a).ticket));
  }

  /**
   * In a run without stray callbacks the flag a caller waits for is up exactly when the one signal of its own command
   * has been raised: a caller that returns has had its own command carried through.
   */
  lemma ReturnMeansOwnCommandIsDone(es: seq<Event>, a: Action)
    requires forall e <- es :: !AppendsStray(e)
    requires IsCallAction(a) && Run(es).callers.CallOf(a).Waiting?
    ensures var s := Run(es); var own := Token(a, s.callers.CallOf(a).ticket);
            && (s.callers.Done(a) <==> s.callers.signals[own] == 1 && Owed(s)[own] == 0)
            && (!s.callers.Done(a) <==> Owed(s)[own] == 1)
  {
    RunIsSound(es);
    QuietRunKeepsFlagsOwn(es);
    OwnFlagMeansDone(Run(es).callers, a, Owed(Run(es)));
  }

  lemma OwnFlagMeansDone(c: Callers, a: Action, owed: multiset<Token>)
    requires CallersAreSound(c, owed) && FlagsAreOwn(c, owed) && IsCallAction(a) && c.CallOf(a).Waiting?
    ensures var own := Token(a, c.CallOf(a).ticket);
            && (c.Done(a) <==> c.signals[own] == 1 && owed[own] == 0)
            && (!c.Done(a) <==> owed[own] == 1)
  {
    var own := Token(a, c.CallOf(a).ticket);
    assert c.issued[own] == c.signals[own] + owed[own];
  }

  /** What a caller relies on: a flag that is up means that its own command is done. */
  ghost predicate IsTruthful(s: System) {
    forall a | IsCallAction(a) && s.callers.CallOf(a).Waiting? && s.callers.Done(a) ::
      Token(a, s.callers.CallOf(a).ticket) in s.callers.signals
  }

  /** Whatever other producers, and the handling of their commands, append is among the given; pings always are. */
  ghost predicate Draws(e: Event, from: iset<Command>) {
    match e
    case Produce(cs) => forall c <- cs :: c in from
    case Wake(plan) => forall f <- plan :: f.Enqueue? && IsProduced(f.c) && !IsPing(f) ==> f.c in from
    case Next(plan) => forall f <- plan :: f.Enqueue? && IsProduced(f.c) && !IsPing(f) ==> f.c in from
    case _ => true
  }

  /** A prepared message with a callback action: the caller that starts behind it returns before its own command. */
  function EarlyReturn(c: Command, a: Action): seq<Event> {
    [] + [Start] + [Produce([c])] + [Begin(a)] + [Submit(a)] + [Wake([Signal(a, None)])] + [Act]
  }

  lemma StrayCallbackReturnsEarly(c: Command)
    requires IsStray(c)
    ensures var a := c.action; var s := Run(EarlyReturn(c, a));
            && Enabled(s, Return(a)) && s.callers.CallOf(a) == Waiting(0)
            && s.queue.commands == [c, CommandOf(a, 0)] && s.callers.signals == multiset{}
  {
    var a, queued := c.action, [] + [Start] + [Produce([c])];
    StrayIsQueued(c);
    CallIsBegun(queued, c, a);
    CallIsSubmitted(queued + [Begin(a)], c, a);
    StrayIsTakenUp(queued + [Begin(a)] + [Submit(a)], c, a);
    StrayActs(queued + [Begin(a)] + [Submit(a)] + [Wake([Signal(a, None)])], c, a);
  }

  lemma StrayIsQueued(c: Command)
    requires IsStray(c)
    ensures var s := Run([] + [Start] + [Produce([c])]);
            s.queue == RunQueue([c], Starting, false, [[c]], []) && s.callers == INITIAL.callers
  {
    RunOneMore([], Start);
    RunOneMore([] + [Start], Produce([c]));
  }

  lemma CallIsBegun(es: seq<Event>, c: Command, a: Action)
    requires Run(es).queue == RunQueue([c], Starting, false, [[c]], []) && Run(es).callers == INITIAL.callers
    requires IsCallAction(a)
    ensures var s := Run(es + [Begin(a)]);
            && s.queue == Run(es).queue && s.callers.CallOf(a) == Begun(0) && s.callers.signals == multiset{}
  {
    RunOneMore(es, Begin(a));
  }

  lemma CallIsSubmitted(es: seq<Event>, c: Command, a: Action)
    requires Run(es).queue == RunQueue([c], Starting, false, [[c]], []) && IsCallAction(a)
    requires Run(es).callers.CallOf(a) == Begun(0) && Run(es).callers.signals == multiset{}
    ensures var s := Run(es + [Submit(a)]);
            && s.queue.commands == [c, CommandOf(a, 0)] && s.queue.handler == Starting
            && s.callers.CallOf(a) == Waiting(0) && s.callers.signals == multiset{}
  {
    RunOneMore(es, Submit(a));
  }

  lemma StrayIsTakenUp(es: seq<Event>, c: Command, a: Action)
    requires IsStray(c) && a == c.action
    requires Run(es).queue.commands == [c, CommandOf(a, 0)] && Run(es).queue.handler == Starting
    ensures var s := Run(es + [Wake([Signal(a, None)])]);
            && s.queue.commands == [c, CommandOf(a, 0)] && s.queue.handler == Working([Signal(a, None)])
            && s.callers == Run(es).callers
  {
    RunOneMore(es, Wake([Signal(a, None)]));
  }

  lemma StrayActs(es: seq<Event>, c: Command, a: Action)
    requires Run(es).queue.commands == [c, CommandOf(a, 0)] && Run(es).queue.handler == Working([Signal(a, None)])
    requires IsCallAction(a) && Run(es).callers.CallOf(a) == Waiting(0) && Run(es).callers.signals == multiset{}
    ensures var s := Run(es + [Act]);
            && Enabled(s, Return(a)) && s.callers.CallOf(a) == Waiting(0)
            && s.queue.commands == [c, CommandOf(a, 0)] && s.callers.signals == multiset{}
  {
    RunOneMore(es, Act);
  }

  lemma RunOneMore(es: seq<Event>, e: Event)
    ensures Run(es + [e]) == Step(Run(es), e)
  {
    assert (es + [e])[..|es|] == es;
  }

  /**
   * The handshake is sound for what a set of commands can make the other producers append exactly when none of them is
   * a message that carries a callback action of its own.
   */
  lemma FlagsAreTruthfulExactlyWhen(from: iset<Command>)
    ensures (forall es: seq<Event> | (forall e <- es :: Draws(e, from)) :: IsTruthful(Run(es))) <==>
            forall c <- from :: !IsStray(c)
  {
    if c :| c in from && IsStray(c) {
      var es := EarlyReturn(c, c.action);
      StrayCallbackReturnsEarly(c);
      assert forall e <- es :: Draws(e, from);
      assert !IsTruthful(Run(es));
    } else {
      forall es: seq<Event> | forall e <- es :: Draws(e, from)
        ensures IsTruthful(Run(es))
      {
        QuietDraws(es, from);
        forall a | IsCallAction(a) && Run(es).callers.CallOf(a).Waiting? && Run(es).callers.Done(a)
          ensures Token(a, Run(es).callers.CallOf(a).ticket) in Run(es).callers.signals
        {
          ReturnMeansOwnCommandIsDone(es, a);
        }
      }
    }
  }

  lemma QuietDraws(es: seq<Event>, from: iset<Command>)
    requires (forall e <- es :: Draws(e, from)) && forall c <- from :: !IsStray(c)
    ensures forall e <- es :: !AppendsStray(e)
  {
  }
}
