/** On which runs and calls the source, as written, does what is documented. */
module Faithful {
  import opened Bytes
  import opened Types
  import opened Frame
  import opened Cap
  import opened Broker
  import opened Control
  import opened Routing
  import opened Drains
  import opened Waiting
  import FrameLaws
  import Transport

  // ----- Runs -----

  /**
   A client's listener comes back from a read, the main thread takes from an inbox, the CAP listener comes back from
   a read, or the main thread calls octopipes_server_process_cap_once.
   */
  datatype Event =
    | Heard(id: Name, read: Result<Data>)
    | Took(i: nat, refused: Refusals)
    | CapHeard(read: Result<Data>)
    | CapTurned(env: CapEnv)

  /**
   Waits: the main thread waits for the CAP mutex, which nobody will unlock. Strays: the source uses memory that it does
   not own, or queues a pointer to such memory, which whoever takes the entry follows. A run is followed up to there.
   */
  datatype Outcome = Went(state: CapState) | Waits | Strays

  function Happen(c: CapState, e: Event, reading: Reading): (r: Outcome) {
    match e
    case Heard(id, read) =>
      if !Registered(c.server.workers, id) then Went(c)
      else
        (match Listen(read, reading)
         case Nothing => Went(c)
         case Queued(entry) => Went(c.(server := Push(c.server, id, entry)))
         case Undefined => Strays)
    case Took(i, refused) =>
      if i >= |c.server.workers| then Went(c)
      else if reading == AsWritten && DrainFaults(c.server, i) then Strays
      else Went(c.(server := Drain(c.server, i, refused).server))
    case CapHeard(read) =>
      // While the mutex is locked the CAP listener waits, and what it read is not queued.
      (match Listen(read, reading)
       case Nothing => Went(c)
       case Queued(entry) => Went(if c.locked then c else c.(inbox := c.inbox + [entry]))
       case Undefined => if c.locked && Decode(read.value, reading) != Overread then Went(c) else Strays)
    case CapTurned(env) =>
      match CapOnce(c, env, reading)
      case Turned(t, _, _) => Went(t)
      case Blocked => Waits
      case Faulted => Strays
  }

  function HappenAll(c: CapState, events: seq<Event>, reading: Reading): (r: Outcome)
    decreases |events|
  {
    if events == [] then Went(c)
    else
      var o := Happen(c, events[0], reading);
      if o.Went? then HappenAll(o.state, events[1..], reading) else o
  }

  /** What must hold before an event for the source to do what is documented. */
  predicate SafeEvent(c: CapState, e: Event) {
    match e
    case Heard(id, read) => Registered(c.server.workers, id) ==> Readable(read)
    case Took(i, _) => i < |c.server.workers| ==> !DrainFaults(c.server, i)
    case CapHeard(read) => CapReadable(c, read)
    case CapTurned(env) =>
      c.locked || c.inbox == []
      || (|c.inbox| == 1 && c.inbox[0].message.Some? && Welcome(c.server, c.inbox[0].message.value, env))
  }

  predicate CapReadable(c: CapState, read: Result<Data>) {
    Readable(read) || (c.locked && Decode(read.value, AsWritten) != Overread)
  }

  /** Every event is safe in the documented state before it. */
  predicate SafeEvents(c: CapState, events: seq<Event>)
    decreases |events|
  {
    events == [] ||
    (SafeEvent(c, events[0]) &&
     var o := Happen(c, events[0], Documented);
     o.Went? ==> SafeEvents(o.state, events[1..]))
  }

  /** The event is a read of a truncated frame that decoding accepts as written. */
  predicate ShortRead(e: Event) {
    (e.Heard? || e.CapHeard?) && AcceptedShort(e.read)
  }

  /**
   One event is what is documented iff it is safe. An unsafe event that is not a read of an accepted short frame goes
   astray or leaves the mutex locked.
   */
  lemma EventFaithfulIff(c: CapState, e: Event)
    ensures Happen(c, e, AsWritten) == Happen(c, e, Documented) <==> SafeEvent(c, e)
    ensures !SafeEvent(c, e) && !ShortRead(e) ==>
              var o := Happen(c, e, AsWritten); o.Strays? || (o.Went? && o.state.locked)
  {
    hide Drain, DrainFaults, CapOnce, Welcome, Decode;
    match e
    case Heard(id, read) => HeardFaithfulIff(c, id, read);
    case Took(i, refused) =>
    case CapHeard(read) => CapHeardFaithfulIff(c, read);
    case CapTurned(env) => CapTurnedFaithfulIff(c, env);
  }

  lemma HeardFaithfulIff(c: CapState, id: Name, read: Result<Data>)
    ensures Happen(c, Heard(id, read), AsWritten) == Happen(c, Heard(id, read), Documented)
            <==> (Registered(c.server.workers, id) ==> Readable(read))
    ensures Registered(c.server.workers, id) && !Readable(read) && !AcceptedShort(read) ==>
              Happen(c, Heard(id, read), AsWritten) == Strays
  {
    hide Decode;
    ListenSafeIff(read);
    var d, w := Listen(read, Documented), Listen(read, AsWritten);
    if Registered(c.server.workers, id) && d.Queued? && w.Queued? {
      PushDistinguishes(c.server, id, d.entry, w.entry);
    }
  }

  lemma PushDistinguishes(s: Server, id: Name, e: Entry, f: Entry)
    requires Registered(s.workers, id)
    ensures Push(s, id, e) == Push(s, id, f) <==> e == f
  {
    var i := IndexOf(s.workers, id);
    var q := s.workers[i].inbox;
    assert Push(s, id, e).workers[i].inbox[|q|] == e && Push(s, id, f).workers[i].inbox[|q|] == f;
  }

  lemma CapHeardFaithfulIff(c: CapState, read: Result<Data>)
    ensures Happen(c, CapHeard(read), AsWritten) == Happen(c, CapHeard(read), Documented)
            <==> CapReadable(c, read)
    ensures !CapReadable(c, read) && !AcceptedShort(read) ==> Happen(c, CapHeard(read), AsWritten) == Strays
  {
    hide Decode;
    ListenSafeIff(read);
    var d, w := Listen(read, Documented), Listen(read, AsWritten);
    if d.Queued? && w.Queued? && d != w {
      assert (c.inbox + [d.entry])[|c.inbox|] != (c.inbox + [w.entry])[|c.inbox|];
    }
  }

  lemma CapTurnedFaithfulIff(c: CapState, env: CapEnv)
    ensures Happen(c, CapTurned(env), AsWritten) == Happen(c, CapTurned(env), Documented)
            <==> SafeEvent(c, CapTurned(env))
    ensures !SafeEvent(c, CapTurned(env)) ==>
              var o := Happen(c, CapTurned(env), AsWritten); o.Strays? || (o.Went? && o.state.locked)
  {
    hide HandleCap, Welcome;
    CapOnceFaithfulIff(c, env);
    if !c.locked {
      CapPassAnswers(c, env);
    }
    if c.inbox != [] && c.inbox[0].message.Some? {
      CapSafeIff(c.server, c.inbox[0].message.value, env);
    }
  }

  /** In a safe run the source as written goes through the documented states. */
  lemma {:induction false} SafeRunsAgree(c: CapState, events: seq<Event>)
    requires SafeEvents(c, events)
    ensures HappenAll(c, events, AsWritten) == HappenAll(c, events, Documented)
    decreases |events|
  {
    hide Happen, SafeEvent;
    if events != [] {
      EventFaithfulIff(c, events[0]);
      var o := Happen(c, events[0], Documented);
      if o.Went? {
        SafeRunsAgree(o.state, events[1..]);
      }
    }
  }

  /** All along a run, the source is where it is documented to be. */
  predicate Faithfully(c: CapState, events: seq<Event>) {
    forall n :: 0 <= n <= |events| ==>
      HappenAll(c, events[..n], AsWritten) == HappenAll(c, events[..n], Documented)
  }

  /** The source does what is documented all along a run iff every event of it is safe. */
  lemma {:induction false} FaithfulIff(c: CapState, events: seq<Event>)
    ensures Faithfully(c, events) <==> SafeEvents(c, events)
    decreases |events|
  {
    hide Happen, SafeEvent;
    if SafeEvents(c, events) {
      forall n | 0 <= n <= |events|
        ensures HappenAll(c, events[..n], AsWritten) == HappenAll(c, events[..n], Documented)
      {
        SafePrefix(c, events, n);
        SafeRunsAgree(c, events[..n]);
      }
    }
    if Faithfully(c, events) && events != [] {
      FirstFaithful(c, events);
      var o := Happen(c, events[0], Documented);
      if o.Went? {
        LaterFaithful(c, events);
        FaithfulIff(o.state, events[1..]);
      }
    }
  }

  lemma {:induction false} SafePrefix(c: CapState, events: seq<Event>, n: nat)
    requires SafeEvents(c, events) && n <= |events|
    ensures SafeEvents(c, events[..n])
    decreases n
  {
    hide SafeEvent, Happen;
    if n > 0 {
      assert events[..n][0] == events[0] && events[..n][1..] == events[1..][..n - 1];
      var o := Happen(c, events[0], Documented);
      if o.Went? {
        SafePrefix(o.state, events[1..], n - 1);
      }
    }
  }

  lemma HappenOne(c: CapState, e: Event, reading: Reading)
    ensures HappenAll(c, [e], reading) == Happen(c, e, reading)
  {
    hide Happen;
    var o := Happen(c, e, reading);
    assert [e][1..] == [];
    if o.Went? {
      assert HappenAll(o.state, [], reading) == o;
    }
  }

  lemma FirstFaithful(c: CapState, events: seq<Event>)
    requires Faithfully(c, events) && events != []
    ensures Happen(c, events[0], AsWritten) == Happen(c, events[0], Documented) && SafeEvent(c, events[0])
  {
    hide Happen, SafeEvent, HappenAll;
    assert events[..1] == [events[0]];
    HappenOne(c, events[0], AsWritten);
    HappenOne(c, events[0], Documented);
    EventFaithfulIff(c, events[0]);
  }

  lemma LaterFaithful(c: CapState, events: seq<Event>)
    requires Faithfully(c, events) && events != [] && Happen(c, events[0], Documented).Went?
    requires Happen(c, events[0], AsWritten) == Happen(c, events[0], Documented)
    ensures Faithfully(Happen(c, events[0], Documented).state, events[1..])
  {
    hide Happen;
    var t := Happen(c, events[0], Documented).state;
    forall n | 0 <= n <= |events| - 1
      ensures HappenAll(t, events[1..][..n], AsWritten) == HappenAll(t, events[1..][..n], Documented)
    {
      var part := events[..n + 1];
      assert part[0] == events[0] && part[1..] == events[1..][..n];
      assert HappenAll(c, part, AsWritten) == HappenAll(c, part, Documented);
    }
  }

  // ----- What becomes of the other runs -----

  /** Nothing went astray, nothing waits, and the CAP mutex is free. */
  predicate Sound(o: Outcome) {
    o.Went? && !o.state.locked
  }

  /** Once the mutex is left locked, it stays locked, and no call of process_cap_once ever returns. */
  lemma {:induction false} LockedForGood(c: CapState, events: seq<Event>)
    requires c.locked
    ensures !Sound(HappenAll(c, events, AsWritten))
    ensures (exists e :: e in events && e.CapTurned?) ==> !HappenAll(c, events, AsWritten).Went?
    decreases |events|
  {
    hide Listen, Drain, DrainFaults, Push, Registered;
    if events != [] {
      var o := Happen(c, events[0], AsWritten);
      if o.Went? {
        assert o.state.locked && !events[0].CapTurned?;
        LockedForGood(o.state, events[1..]);
      }
    }
  }

  /**
   Unless a listener accepts a short frame, a run as written comes through soundly iff every event of it is safe: the
   first other event goes astray or leaves the mutex locked for good.
   */
  lemma {:induction false} FaultIff(c: CapState, events: seq<Event>)
    requires !c.locked && forall e :: e in events ==> !ShortRead(e)
    ensures Sound(HappenAll(c, events, AsWritten)) <==> SafeEvents(c, events)
    decreases |events|
  {
    hide Happen, SafeEvent, ShortRead;
    if events != [] {
      assert events[0] in events;
      EventFaithfulIff(c, events[0]);
      DocumentedGoes(c, events[0]);
      var o := Happen(c, events[0], AsWritten);
      if SafeEvent(c, events[0]) {
        FaultIff(o.state, events[1..]);
      } else if o.Went? {
        LockedForGood(o.state, events[1..]);
      }
    }
  }

  /** A CAP request without a payload. */
  const BAD_REQUEST: Message := Message(VERSION_1, [97], [], 60, 0, 0, [])

  function Requested(m: Message, env: CapEnv): (events: seq<Event>) {
    [CapHeard(Ok(Encoded(m))), CapTurned(env)]
  }

  /**
   Such a run: a request without a payload, and then the subscription of a new client. It is documented that the
   client gets a worker; as written its request is never even queued, and the next call never returns.
   */
  lemma FailedRequestBlocks(c: CapState, good: Message, env: CapEnv)
    requires !c.locked && c.inbox == [] && good.version == VERSION_1 && good.Sized()
    requires KindOf(good.data) == Kind.Subscribe && Welcome(c.server, good, env)
    ensures var events := Requested(BAD_REQUEST, env) + Requested(good, env);
            && HappenAll(c, events, AsWritten) == Waits && !SafeEvents(c, events)
            && var o := HappenAll(c, events, Documented);
               o.Went? && Registered(o.state.server.workers, CStr(good.origin))
    ensures HappenAll(c, Requested(BAD_REQUEST, env) + [CapTurned(env)], AsWritten) == Waits
  {
    hide Happen, HappenAll, SafeEvents, Welcome, Encoded, Decode;
    var first, second := Requested(BAD_REQUEST, env), Requested(good, env);
    var locked := c.(locked := true);
    BadRequestTurns(c, env);
    GoodRequestTurns(c, good, env);
    HappenConcat(c, first, second, AsWritten);
    HappenConcat(c, first, second, Documented);
    HappenConcat(c, first, [CapTurned(env)], AsWritten);
    HappenOne(locked, CapTurned(env), AsWritten);
    CapTurnWaits(locked, env);
    RequestWaits(locked, good, env);
    if SafeEvents(c, first + second) {
      SafeRunsAgree(c, first + second);
    }
  }

  lemma {:induction false} HappenConcat(c: CapState, a: seq<Event>, b: seq<Event>, reading: Reading)
    ensures HappenAll(c, a + b, reading)
         == var o := HappenAll(c, a, reading); if o.Went? then HappenAll(o.state, b, reading) else o
    decreases |a|
  {
    hide Happen;
    if a == [] {
      assert a + b == b;
    } else {
      assert (a + b)[1..] == a[1..] + b;
      var o := Happen(c, a[0], reading);
      if o.Went? {
        HappenConcat(o.state, a[1..], b, reading);
      }
    }
  }

  lemma CapTurnWaits(c: CapState, env: CapEnv)
    requires c.locked
    ensures Happen(c, CapTurned(env), AsWritten) == Waits
  {
  }

  lemma RequestWaits(c: CapState, m: Message, env: CapEnv)
    requires c.locked && m.version == VERSION_1 && m.Sized()
    ensures HappenAll(c, Requested(m, env), AsWritten) == Waits
  {
    hide Decode, Encoded;
    FrameBegins(m);
    ListenQueuesFrame(Ok(Encoded(m)), m, AsWritten);
  }

  /** The read returned the frame of the message and then anything with which the buffer still ends in ETX. */
  predicate Begins(read: Result<Data>, m: Message) {
    read.Ok? && Encoded(m) <= read.value && read.value[|read.value| - 1] == ETX
  }

  /** Whatever follows the frame of a message in a buffer that ends in ETX, the message is queued. */
  lemma ListenQueuesFrame(read: Result<Data>, m: Message, reading: Reading)
    requires m.version == VERSION_1 && m.Sized() && Begins(read, m)
    ensures Listen(read, reading) == Queued(Entry(Some(Sealed(m)), SUCCESS))
  {
    hide Decode, Encoded, Sealed;
    var rest := read.value[|Encoded(m)|..];
    assert read.value == Encoded(m) + rest;
    FrameLaws.DecodeInvertsEncode(m, rest, reading);
  }

  lemma FrameBegins(m: Message)
    ensures Begins(Ok(Encoded(m)), m)
  {
    hide Stem;
  }

  /** A request is the listener's entry and the answer to it. */
  lemma RequestTurns(c: CapState, m: Message, env: CapEnv, reading: Reading)
    requires !c.locked && c.inbox == [] && m.version == VERSION_1 && m.Sized()
    ensures var d := c.(inbox := [Entry(Some(Sealed(m)), SUCCESS)]);
            HappenAll(c, Requested(m, env), reading) == Happen(d, CapTurned(env), reading)
  {
    hide Decode, Encoded, Sealed, HandleCap, HappenAll;
    FrameBegins(m);
    ListenQueuesFrame(Ok(Encoded(m)), m, reading);
    var d := c.(inbox := [Entry(Some(Sealed(m)), SUCCESS)]);
    assert c.inbox + d.inbox == d.inbox;
    HappenConcat(c, [CapHeard(Ok(Encoded(m)))], [CapTurned(env)], reading);
    assert Requested(m, env) == [CapHeard(Ok(Encoded(m)))] + [CapTurned(env)];
    HappenOne(c, CapHeard(Ok(Encoded(m))), reading);
    HappenOne(d, CapTurned(env), reading);
  }

  lemma BadRequestTurns(c: CapState, env: CapEnv)
    requires !c.locked && c.inbox == []
    ensures HappenAll(c, Requested(BAD_REQUEST, env), AsWritten) == Went(c.(locked := true))
    ensures HappenAll(c, Requested(BAD_REQUEST, env), Documented) == Went(c)
  {
    hide HappenAll, Requested, Checksum, Decode, KindOf, AnswerSubscription, AnswerUnsubscription;
    RequestTurns(c, BAD_REQUEST, env, AsWritten);
    RequestTurns(c, BAD_REQUEST, env, Documented);
  }

  lemma GoodRequestTurns(c: CapState, good: Message, env: CapEnv)
    requires !c.locked && c.inbox == [] && good.version == VERSION_1 && good.Sized()
    requires KindOf(good.data) == Kind.Subscribe && Welcome(c.server, good, env)
    ensures var o := HappenAll(c, Requested(good, env), Documented);
            o.Went? && Registered(o.state.server.workers, CStr(good.origin))
  {
    hide HappenAll, Requested, TxPath, RxPath, Assignment, Reply, CStr, ParseGroups, Checksum;
    RequestTurns(c, good, env, Documented);
    WelcomeEnrols(c.server, Sealed(good), env);
  }

  /** A welcome subscription adds the worker of its client. */
  lemma WelcomeEnrols(s: Server, m: Message, env: CapEnv)
    requires KindOf(m.data) == Kind.Subscribe && Welcome(s, m, env)
    ensures var h := HandleCap(s, m, env, Documented);
            h.error == SUCCESS && Registered(h.server.workers, CStr(m.origin))
  {
    hide TxPath, RxPath, Assignment, CStr, ParseGroups, Encoded;
    WelcomeIff(s, m, env);
    var groups, client := ParseSubscription(m.data).value, CStr(m.origin);
    AnnouncedGroups(m.data, groups);
    var w := NewWorker(client, groups.list, TxPath(s.folder, client), RxPath(s.folder, client));
    assert (s.workers + [w])[|s.workers|] == w;
  }

  // ----- Documented runs are runs of steps -----

  /** What an event does to the server as documented. */
  function StepsOf(c: CapState, e: Event): (steps: seq<Step>) {
    match e
    case Heard(id, read) =>
      var a := Listen(read, Documented);
      if a.Queued? then [Pushing(id, a.entry)] else []
    case Took(i, refused) => [Draining(i, refused)]
    case CapHeard(_) => []
    case CapTurned(env) =>
      if c.inbox != [] && c.inbox[0].message.Some? then [Controlling(c.inbox[0].message.value, env)] else []
  }

  function StepsAlong(c: CapState, events: seq<Event>): (steps: seq<Step>)
    decreases |events|
  {
    if events == [] then []
    else
      var o := Happen(c, events[0], Documented);
      StepsOf(c, events[0]) + if o.Went? then StepsAlong(o.state, events[1..]) else []
  }

  lemma RunOne(s: Server, step: Step)
    ensures Run(s, [step]) == StepTo(s, step)
  {
    assert [step][1..] == [];
    assert Run(StepTo(s, step), []) == StepTo(s, step);
  }

  lemma RunNone(s: Server)
    ensures Run(s, []) == s
  {
  }

  /** As documented every event goes through, and leaves the mutex free. */
  lemma DocumentedGoes(c: CapState, e: Event)
    requires !c.locked
    ensures var o := Happen(c, e, Documented);
            o.Went? && !o.state.locked && o.state.server == Run(c.server, StepsOf(c, e))
  {
    hide Drain, HandleCap, Decode, Run, IndexOf;
    var s := c.server;
    RunNone(s);
    match e
    case Heard(id, read) =>
      ListenSafeIff(read);
      var a := Listen(read, Documented);
      if a.Queued? {
        RunOne(s, Pushing(id, a.entry));
      }
    case Took(i, refused) => RunOne(s, Draining(i, refused));
    case CapHeard(read) => ListenSafeIff(read);
    case CapTurned(env) =>
      CapPassAnswers(c, env);
      if c.inbox != [] && c.inbox[0].message.Some? {
        RunOne(s, Controlling(c.inbox[0].message.value, env));
      }
  }

  /** So everything proved of runs of steps holds of the documented states. */
  lemma {:induction false} DocumentedIsRun(c: CapState, events: seq<Event>)
    requires !c.locked
    ensures var o := HappenAll(c, events, Documented);
            Sound(o) && o.state.server == Run(c.server, StepsAlong(c, events))
    decreases |events|
  {
    hide Happen, StepsOf;
    if events != [] {
      DocumentedGoes(c, events[0]);
      var t := Happen(c, events[0], Documented).state;
      DocumentedIsRun(t, events[1..]);
      RunConcat(c.server, StepsOf(c, events[0]), StepsAlong(t, events[1..]));
    }
  }

  /** In a safe run as written clients get exactly what they are owed, and every inbox is conserved. */
  lemma SafeRunsRoute(c: CapState, events: seq<Event>, from: Name, to: Name)
    requires !c.locked && RegistryOk(c.server.folder, c.server.workers) && SafeEvents(c, events)
    ensures var o, steps := HappenAll(c, events, AsWritten), StepsAlong(c, events);
            Sound(o) &&
            var s, t := c.server, o.state.server;
            && Between(t.sent, from, to) == Between(s.sent, from, to) + Owed(s, steps, from, to)
            && InboxOf(s.workers, from) + Pushed(s, steps, from) == Taken(s, steps, from) + InboxOf(t.workers, from)
  {
    hide HappenAll, StepsAlong, SafeEvents, Run, Owed, Pushed, Taken;
    SafeRunsAgree(c, events);
    DocumentedIsRun(c, events);
    RoutingExact(c.server, StepsAlong(c, events), from, to);
    InboxConserved(c.server, StepsAlong(c, events), from);
  }

  // ----- Entries -----

  predicate CapValid(c: CapState) {
    AllValid(c.server) && forall e :: e in c.inbox ==> e.Valid()
  }

  lemma EventKeepsEntries(c: CapState, e: Event)
    requires !c.locked && CapValid(c)
    ensures CapValid(Happen(c, e, Documented).state)
  {
    hide Drain, HandleCap, Push, Registered, Decode, Run;
    DocumentedGoes(c, e);
    EntriesAlongRun(c.server, StepsOf(c, e));
    if e.CapTurned? {
      CapPassAnswers(c, e.env);
    }
  }

  /** Whatever listeners read, every entry queued or dequeued, the CAP's included, is of one of the two kinds. */
  lemma {:induction false} EventEntries(c: CapState, events: seq<Event>)
    requires !c.locked && CapValid(c)
    ensures var o := HappenAll(c, events, Documented); o.Went? && CapValid(o.state)
    decreases |events|
  {
    hide Happen, CapValid;
    if events != [] {
      DocumentedGoes(c, events[0]);
      EventKeepsEntries(c, events[0]);
      EventEntries(Happen(c, events[0], Documented).state, events[1..]);
    }
  }

  // ----- Listeners and their reads -----

  /** The budget of the listeners' reads. */
  const LISTEN_TIME: nat := 200

  /**
   From the events of a pipe to an inbox: a read that times out changes nothing, and one that finds the pipe broken
   before any byte adds one entry, with that error and no message.
   */
  lemma IdleReadQueuesNothing(c: CapState, id: Name, idle: seq<Transport.ReadEvent>, reading: Reading)
    requires !c.locked && Transport.Idle(idle) && Transport.Empties(idle) == 4
    ensures var read := Transport.Receive(LISTEN_TIME, None, 0, idle);
            read.Some? && Happen(c, Heard(id, read.value), reading) == Went(c)
            && Happen(c, CapHeard(read.value), reading) == Went(c)
  {
    hide Decode;
    Transport.IdleReadFrom(LISTEN_TIME, 0, idle);
  }

  lemma BrokenReadQueuesError(c: CapState, id: Name, idle: seq<Transport.ReadEvent>, late: seq<Transport.ReadEvent>,
                              reading: Reading)
    requires !c.locked && UniqueIds(c.server.workers) && Registered(c.server.workers, id)
    requires Transport.Idle(idle) && Transport.Empties(idle) < 4
    ensures var read := Transport.Receive(LISTEN_TIME, None, 0, idle + ([Transport.Broken] + late));
            var e := Entry(None, ServerError.READ_FAILED);
            && read.Some?
            && var w, a := Happen(c, Heard(id, read.value), reading), Happen(c, CapHeard(read.value), reading);
               && w.Went? && InboxOf(w.state.server.workers, id) == InboxOf(c.server.workers, id) + [e]
               && (forall other :: other != id ==>
                     InboxOf(w.state.server.workers, other) == InboxOf(c.server.workers, other))
               && a == Went(c.(inbox := c.inbox + [e]))
  {
    hide Decode, Push, InboxOf, IndexOf, UniqueIds;
    var e := Entry(None, ServerError.READ_FAILED);
    Transport.FailedReads(LISTEN_TIME, idle, late);
    PushConserves(c.server, id, e, id);
    forall other | other != id
      ensures InboxOf(Push(c.server, id, e).workers, other) == InboxOf(c.server.workers, other)
    {
      PushConserves(c.server, id, e, other);
    }
  }

  /** What the CAP listener queues in a run. */
  function CapEntries(events: seq<Event>): (q: seq<Entry>) {
    if events == [] then []
    else
      var a := if events[0].CapHeard? then Listen(events[0].read, Documented) else Nothing;
      (if a.Queued? then [a.entry] else []) + CapEntries(events[1..])
  }

  /** How many process_cap_once calls find something. */
  function CapAnswered(c: CapState, events: seq<Event>): (n: nat)
    decreases |events|
  {
    if events == [] then 0
    else
      var o := Happen(c, events[0], Documented);
      (if events[0].CapTurned? && c.inbox != [] then 1 else 0)
      + if o.Went? then CapAnswered(o.state, events[1..]) else 0
  }

  /** The CAP inbox is a queue: each call takes the oldest entry, and the listener's come after the others. */
  lemma {:induction false} CapInboxConserved(c: CapState, events: seq<Event>)
    requires !c.locked
    ensures var o, all, n := HappenAll(c, events, Documented), c.inbox + CapEntries(events), CapAnswered(c, events);
            o.Went? && n <= |all| && o.state.inbox == all[n..]
    decreases |events|
  {
    hide Happen;
    if events != [] {
      var e := events[0];
      DocumentedGoes(c, e);
      CapInboxStep(c, e);
      var t := Happen(c, e, Documented).state;
      CapInboxConserved(t, events[1..]);
      var a := if e.CapHeard? then Listen(e.read, Documented) else Nothing;
      var now, later := if a.Queued? then [a.entry] else [], CapEntries(events[1..]);
      var k := if e.CapTurned? && c.inbox != [] then 1 else 0;
      Assoc(c.inbox, now, later);
      assert (c.inbox + now + later)[k..] == (c.inbox + now)[k..] + later;
      var n := CapAnswered(t, events[1..]);
      assert (c.inbox + now + later)[k + n..] == (c.inbox + now + later)[k..][n..];
    }
  }

  lemma CapInboxStep(c: CapState, e: Event)
    requires !c.locked
    ensures var o := Happen(c, e, Documented);
            var a := if e.CapHeard? then Listen(e.read, Documented) else Nothing;
            var k := if e.CapTurned? && c.inbox != [] then 1 else 0;
            o.Went? && o.state.inbox == (c.inbox + if a.Queued? then [a.entry] else [])[k..]
  {
    hide Drain, HandleCap, Decode, Push;
    DocumentedGoes(c, e);
    assert c.inbox + [] == c.inbox;
    if e.CapTurned? {
      CapPassAnswers(c, e.env);
    }
  }

  // ----- Calls -----

  /** The part of SafeEvent that concerns drains. */
  predicate SafeDrains(s: Server, steps: seq<Step>)
    decreases |steps|
  {
    steps == [] ||
    (&& (steps[0].Draining? && steps[0].i < |s.workers| ==> !DrainFaults(s, steps[0].i))
     && SafeDrains(StepTo(s, steps[0]), steps[1..]))
  }

  lemma {:induction false} SafeDrainsConcat(s: Server, a: seq<Step>, b: seq<Step>)
    ensures SafeDrains(s, a + b) <==> SafeDrains(s, a) && SafeDrains(Run(s, a), b)
    decreases |a|
  {
    hide DrainFaults;
    if a == [] {
      assert a + b == b;
    } else {
      assert (a + b)[1..] == a[1..] + b;
      SafeDrainsConcat(StepTo(s, a[0]), a[1..], b);
    }
  }

  lemma {:induction false} PushesAreSafe(s: Server, arrivals: seq<(Name, Entry)>)
    ensures SafeDrains(s, Pushes(arrivals))
    decreases |arrivals|
  {
    if arrivals != [] {
      assert Pushes(arrivals)[1..] == Pushes(arrivals[1..]);
      PushesAreSafe(Push(s, arrivals[0].0, arrivals[0].1), arrivals[1..]);
    }
  }

  lemma TurnIsSafeIff(s: Server, i: nat, t: Turn)
    requires i < |s.workers|
    ensures SafeDrains(s, TurnSteps(i, t)) <==> !DrainFaults(Arrive(s, t.arrivals), i)
  {
    var a, last := Arrive(s, t.arrivals), [Draining(i, t.refused)];
    SafeDrainsConcat(s, Pushes(t.arrivals), last);
    PushesAreSafe(s, t.arrivals);
    ArriveIsRun(s, t.arrivals);
    assert last[1..] == [] && SafeDrains(StepTo(a, last[0]), []);
  }

  /** A process_once call runs as written iff the run it stands for makes safe drains only. */
  lemma {:induction false} OnceRunsIff(s: Server, i: nat, turns: seq<Turn>)
    requires i <= |s.workers|
    ensures OnceRuns(s, i, turns, AsWritten) <==> SafeDrains(s, OnceSteps(s, i, turns))
    decreases |s.workers| - i
  {
    hide DrainFaults, TurnSteps, Drain, Arrive;
    if i < |s.workers| {
      var t := TurnAt(turns, i);
      var d := Drain(Arrive(s, t.arrivals), i, t.refused);
      TurnIsSafeIff(s, i, t);
      TurnIsRun(s, i, t);
      if d.stop {
        assert TurnSteps(i, t) + [] == TurnSteps(i, t);
      } else {
        OnceRunsIff(d.server, i + 1, turns);
        SafeDrainsConcat(s, TurnSteps(i, t), OnceSteps(d.server, i + 1, turns));
      }
    }
  }

  /** The same for process_first. */
  lemma {:induction false} FirstRunsIff(s: Server, i: nat, turns: seq<Turn>)
    requires i <= |s.workers|
    ensures FirstRuns(s, i, turns, AsWritten) <==> SafeDrains(s, FirstSteps(s, i, turns))
    decreases |s.workers| - i
  {
    hide DrainFaults, TurnSteps, Drain, Arrive;
    if i < |s.workers| {
      var t := TurnAt(turns, i);
      var a := Arrive(s, t.arrivals);
      TurnIsSafeIff(s, i, t);
      if a.workers[i].inbox == [] {
        ArriveIsRun(s, t.arrivals);
        PushesAreSafe(s, t.arrivals);
        FirstRunsIff(a, i + 1, turns);
        SafeDrainsConcat(s, Pushes(t.arrivals), FirstSteps(a, i + 1, turns));
      }
    }
  }

  /** And for process_all, whatever arrives and whoever refuses. */
  lemma {:induction false} AllRunsIff(s: Server, passes: seq<seq<Turn>>)
    ensures AllRuns(s, passes, AsWritten) <==> SafeDrains(s, AllSteps(s, passes))
    decreases |passes|, Backlog(s.workers)
  {
    hide OnceFrom, OnceSteps, OnceRuns, DrainFaults, Backlog;
    var turns := if passes == [] then [] else passes[0];
    var o := Once(s, turns);
    OnceRunsIff(s, 0, turns);
    if o.error != SUCCESS || o.requests == 0 {
      assert OnceSteps(s, 0, turns) + [] == OnceSteps(s, 0, turns);
    } else {
      OnceIsRun(s, 0, turns);
      OnceBacklogQuiet(s);
      var rest := if passes == [] then [] else passes[1..];
      AllRunsIff(o.server, rest);
      SafeDrainsConcat(s, OnceSteps(s, 0, turns), AllSteps(o.server, rest));
    }
  }

  /**
   Nobody can wait behind another entry as written: a call that is documented to succeed faults if any inbox holds
   a second entry when it starts.
   */
  lemma {:induction false} SecondEntryFaults(s: Server, j: nat, turns: seq<Turn>, i: nat)
    requires j <= i < |s.workers| && |s.workers[i].inbox| > 1
    requires EntriesOk(s.workers) && TurnsOk(turns) && OnceFrom(s, j, turns).error == SUCCESS
    ensures !OnceRuns(s, j, turns, AsWritten)
    decreases |s.workers| - j
  {
    hide Drain;
    var t := TurnAt(turns, j);
    assert ArrivalsOk(t.arrivals);
    var a := Arrive(s, t.arrivals);
    ArriveGrows(s, t.arrivals);
    assert |a.workers[i].inbox| > 1;
    if j < i {
      DrainValid(a, j, t.refused);
      SecondEntryFaults(Drain(a, j, t.refused).server, j + 1, turns, i);
    }
  }

  /**
   What is left of bounded waiting as written: when the first of the calls runs, the inbox held a single entry, and
   that call takes it.
   */
  lemma WaitingAsWritten(s: Server, calls: seq<Call>, id: Name, k: nat)
    requires RegistryOk(s.folder, s.workers) && EntriesOk(s.workers)
    requires |calls| == k + 1 && Succeed(s, calls, id) && k < |InboxOf(s.workers, id)|
    requires OnceRuns(Run(s, calls[0].between), 0, calls[0].turns, AsWritten)
    ensures |InboxOf(s.workers, id)| == 1 && LastTakes(s, calls, id, InboxOf(s.workers, id)[0])
  {
    hide OnceRuns, Run, OnceFrom, EntriesOk;
    var t := Run(s, calls[0].between);
    BetweenKeepsInbox(s, calls[0].between, id);
    if |InboxOf(t.workers, id)| > 1 {
      SecondEntryFaults(t, 0, calls[0].turns, IndexOf(t.workers, id));
    }
    BoundedWaiting(s, calls, id, k);
  }

  // ----- Calls during which nothing arrives -----

  /** No inbox holds a second entry, nor a message that would be sent with no lifetime. */
  predicate Shallow(ws: seq<Worker>) {
    forall i :: 0 <= i < |ws| ==> |ws[i].inbox| <= 1 && !HeadFaults(ws, ws[i].inbox)
  }

  predicate HeadFaults(ws: seq<Worker>, q: seq<Entry>) {
    q != [] && q[0].message.Some? && DispatchFaults(ws, q[0].message.value)
  }

  lemma {:induction false} QuietOnceRunsIff(s: Server, i: nat, turns: seq<Turn>)
    requires i <= |s.workers| && EntriesOk(s.workers) && NoArrivals(turns) && HeadsGo(s.workers, i, turns)
    ensures OnceRuns(s, i, turns, AsWritten) <==> forall j :: i <= j < |s.workers| ==> !DrainFaults(s, j)
    decreases |s.workers| - i
  {
    hide Drain, DrainFaults, Goes, EntriesOk;
    if i < |s.workers| {
      var t := TurnAt(turns, i);
      assert t.arrivals == [];
      ArriveNothing(s);
      HeadDrain(s, i, t.refused);
      HeadsGoLater(s.workers, i, turns);
      QuietOnceRunsIff(Drain(s, i, t.refused).server, i + 1, turns);
      OtherFaults(s, i, t.refused);
    }
  }

  lemma OtherFaults(s: Server, i: nat, refused: Refusals)
    requires i < |s.workers|
    ensures forall j :: i < j < |s.workers| ==>
              (DrainFaults(Drain(s, i, refused).server, j) <==> DrainFaults(s, j))
  {
    hide DispatchFaults;
    var t := Drain(s, i, refused).server;
    DrainWorkers(s, i, refused);
    forall j | i < j < |s.workers| ensures DrainFaults(t, j) <==> DrainFaults(s, j) {
      var q := s.workers[j].inbox;
      if q != [] && q[0].message.Some? {
        SameFaults(s.workers, t.workers, q[0].message.value);
      }
    }
  }

  /**
   process_all, when nothing arrives and every queued entry can be dispatched in its pass, runs as written iff no
   inbox holds a second entry or a message of no lifetime that has a recipient; it then does what
   ProcessAllIsRoundRobin says.
   */
  lemma QuietAllRunsIff(s: Server, passes: seq<seq<Turn>>)
    requires EntriesOk(s.workers) && NoneArrive(passes) && AllGo(s.workers, passes)
    ensures AllRuns(s, passes, AsWritten) <==> Shallow(s.workers)
  {
    hide AllGo, EntriesOk, HeadsGo, Shallow, DrainFaults, OnceRuns, Once, Tails, Heads, NoArrivals;
    var turns, rest := if passes == [] then [] else passes[0], if passes == [] then [] else passes[1..];
    var o := Once(s, turns);
    NoneArriveFirst(passes);
    WholeQuietPass(s, turns);
    AllGoSplit(s.workers, passes);
    QuietOnceRunsIff(s, 0, turns);
    ShallowIff(s);
    if o.requests > 0 && Shallow(s.workers) {
      EmptyPass(s.workers, o.server, rest);
    }
  }

  lemma ShallowIff(s: Server)
    ensures Shallow(s.workers) <==> forall i :: 0 <= i < |s.workers| ==> !DrainFaults(s, i)
  {
    hide DispatchFaults;
    assert forall i :: 0 <= i < |s.workers| ==>
             (DrainFaults(s, i) <==> |s.workers[i].inbox| > 1 || HeadFaults(s.workers, s.workers[i].inbox));
  }

  /** After a pass over shallow inboxes the next one finds nothing. */
  lemma EmptyPass(ws: seq<Worker>, t: Server, passes: seq<seq<Turn>>)
    requires Shallow(ws) && t.workers == Tails(ws) && NoneArrive(passes)
    ensures AllRuns(t, passes, AsWritten)
  {
    hide NoArrivals;
    var turns := if passes == [] then [] else passes[0];
    NoneArriveFirst(passes);
    assert forall i :: 0 <= i < |ws| ==> t.workers[i].inbox == [];
    WholeQuietPass(t, turns);
    QuietOnceRunsIff(t, 0, turns);
    HeadsOfEmpty(t.workers);
  }

  lemma {:induction false} HeadsOfEmpty(ws: seq<Worker>)
    requires forall j :: 0 <= j < |ws| ==> ws[j].inbox == []
    ensures Heads(ws) == []
  {
    if ws != [] {
      HeadsOfEmpty(ws[1..]);
    }
  }
}
