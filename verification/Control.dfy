/** How the server answers the Common Access Pipe, and the steps that a run of the broker is made of. */
module Control {
  import opened Bytes
  import opened Types
  import opened Frame
  import opened Cap
  import opened Broker

  // ----- Pipe paths -----

  const SLASH: byte := 47
  const TX_SUFFIX: Name := [95, 116, 120, 46, 102, 105, 102, 111]  // _tx.fifo
  const RX_SUFFIX: Name := [95, 114, 120, 46, 102, 105, 102, 111]  // _rx.fifo

  function TxPath(folder: Name, id: Name): (p: Name) {
    folder + [SLASH] + id + TX_SUFFIX
  }

  function RxPath(folder: Name, id: Name): (p: Name) {
    folder + [SLASH] + id + RX_SUFFIX
  }

  /** In one folder, two paths are the same only for the same direction of the same client. */
  lemma PathsInjective(folder: Name, a: Name, b: Name)
    ensures TxPath(folder, a) == TxPath(folder, b) <==> a == b
    ensures RxPath(folder, a) == RxPath(folder, b) <==> a == b
    ensures TxPath(folder, a) != RxPath(folder, b)
  {
    var n := |folder| + 1;
    assert TxPath(folder, a)[n..|TxPath(folder, a)| - 8] == a && RxPath(folder, a)[n..|RxPath(folder, a)| - 8] == a;
    assert TxPath(folder, b)[n..|TxPath(folder, b)| - 8] == b && RxPath(folder, b)[n..|RxPath(folder, b)| - 8] == b;
    assert TxPath(folder, a)[|TxPath(folder, a)| - 7] == 116 && RxPath(folder, b)[|RxPath(folder, b)| - 7] == 114;
  }

  /** The paths of the client a in the folder t: t/a_tx.fifo and t/a_rx.fifo. */
  lemma PathsInBytes()
    ensures TxPath([116], [97]) == [116, 47, 97, 95, 116, 120, 46, 102, 105, 102, 111]
    ensures RxPath([116], [97]) == [116, 47, 97, 95, 114, 120, 46, 102, 105, 102, 111]
  {
  }

  // ----- CAP requests -----

  /** Whether the FIFOs of a new client can be created, and what pipe_send returns for the reply. */
  datatype CapEnv = CapEnv(pipesOk: bool, reply: Result<()>)

  const NO_TROUBLE: CapEnv := CapEnv(true, Ok(()))

  /** Crashed: the C code reads or frees memory it does not own. */
  datatype CapOutcome = Handled(server: Server, error: ServerError) | Crashed

  /** The message that octopipes_server_write_cap builds around a payload. */
  function ReplyMessage(client: Name, payload: Data): (m: Message) {
    Message(VERSION_1, [], client, 5, 0, 0, payload)
  }

  function Reply(s: Server, client: Name, payload: Data): (r: Server) {
    s.(replies := s.replies + [Encoded(ReplyMessage(client, payload))])
  }

  /**
   cap_manage_subscription. As written, a group that overruns the payload frees a pointer that was never set,
   and an incomplete group list, a name that is taken and a FIFO that cannot be created lead to uninitialised or
   freed strings and sizes of -1. Documented are a packet error and the two CAP errors, sent with empty paths and
   without touching the registry.
   */
  function AnswerSubscription(s: Server, client: Name, payload: Data, env: CapEnv, reading: Reading): (r: CapOutcome) {
    match ParseSubscription(payload)
    case Err(e) => if reading == AsWritten && |payload| >= 2 then Crashed else Handled(s, ToServerError(e))
    case Ok(groups) =>
      if reading == AsWritten
         && (|groups.list| < groups.announced || Registered(s.workers, client) || !env.pipesOk) then Crashed
      else if |groups.list| < groups.announced then Handled(s, ServerError.BAD_PACKET)
      else Enrol(s, client, groups.list, env)
  }

  /** Start a worker and tell its client; stop it again if the client cannot be told. */
  function Enrol(s: Server, client: Name, groups: seq<Data>, env: CapEnv): (r: CapOutcome) {
    var tx, rx := TxPath(s.folder, client), RxPath(s.folder, client);
    var (workers, rc) := Start(s.workers, NewWorker(client, groups, tx, rx), env.pipesOk);
    if rc != SUCCESS then
      var error := if rc == WORKER_EXISTS then NAME_ALREADY_TAKEN else FS;
      if env.reply.Ok? then Handled(Reply(s, client, Assignment(error, [], [])), SUCCESS)
      else Handled(s, ToServerError(env.reply.error))
    else if env.reply.Ok? then
      Handled(Reply(s.(workers := workers), client, Assignment(CAP_SUCCESS, tx, rx)), SUCCESS)
    else Handled(s.(workers := Stop(workers, client).0), ToServerError(env.reply.error))
  }

  /**
   cap_manage_unsubscription. As written, the search has no bound and runs off the registry when the client
   is not in it.
   */
  function AnswerUnsubscription(s: Server, client: Name, payload: Data, reading: Reading): (r: CapOutcome) {
    if KindOf(payload) != Kind.Unsubscribe then Handled(s, ServerError.BAD_PACKET)
    else if reading == AsWritten && !Registered(s.workers, client) && s.workers != [] then Crashed
    else
      var (workers, rc) := Stop(s.workers, client);
      Handled(s.(workers := workers), rc)
  }

  /** octopipes_server_handle_cap_message. */
  function HandleCap(s: Server, m: Message, env: CapEnv, reading: Reading): (r: CapOutcome)
    ensures reading == Documented ==> r.Handled?
  {
    if m.data == [] || m.origin == [] then Handled(s, ServerError.BAD_PACKET)
    else
      match KindOf(m.data)
      case Subscribe => AnswerSubscription(s, CStr(m.origin), m.data, env, reading)
      case Unsubscribe => AnswerUnsubscription(s, CStr(m.origin), m.data, reading)
      case _ => Handled(s, ServerError.BAD_PACKET)
  }

  /** The CAP requests on which the source stays within its own memory. */
  predicate SafeRequest(s: Server, m: Message, env: CapEnv) {
    m.origin == [] ||
    match KindOf(m.data)
    case Subscribe =>
      var groups := ParseSubscription(m.data);
      |m.data| < 2 || (groups.Ok? && !Exhausted(m.data[2..], groups.value.list, m.data[1])
                       && !Registered(s.workers, CStr(m.origin)) && env.pipesOk)
    case Unsubscribe => Registered(s.workers, CStr(m.origin)) || s.workers == []
    case _ => true
  }

  /** The source handles a request without touching foreign memory iff it is safe; then it does what is documented. */
  lemma CapSafeIff(s: Server, m: Message, env: CapEnv)
    ensures HandleCap(s, m, env, AsWritten).Handled? <==> SafeRequest(s, m, env)
    ensures SafeRequest(s, m, env) ==> HandleCap(s, m, env, AsWritten) == HandleCap(s, m, env, Documented)
  {
    var groups := ParseSubscription(m.data);
    if KindOf(m.data) == Kind.Subscribe && groups.Ok? {
      AnnouncedGroups(m.data, groups.value);
    }
  }

  // ----- The inbox of the CAP -----

  /** The server with the messages its CAP listener queued; locked is the mutex, as the main thread left it. */
  datatype CapState = CapState(server: Server, inbox: seq<Entry>, locked: bool)

  /** Blocked: the call waits for a mutex that nobody will unlock. */
  datatype CapTurn = Turned(state: CapState, requests: nat, error: ServerError) | Blocked | Faulted

  /**
   octopipes_server_process_cap_once. As written, shifting two or more entries leaves the inbox record, an entry
   without a message is looked up again in the shortened inbox, and a failed request returns without unlocking.
   An entry that carries an error is counted and otherwise ignored in both readings.
   */
  function CapOnce(c: CapState, env: CapEnv, reading: Reading): (r: CapTurn) {
    if c.locked then Blocked
    else if c.inbox == [] then Turned(c, 0, SUCCESS)
    else if reading == AsWritten && (|c.inbox| > 1 || c.inbox[0].message.None?) then Faulted
    else if c.inbox[0].message.None? then Turned(c.(inbox := c.inbox[1..]), 1, SUCCESS)
    else
      match HandleCap(c.server, c.inbox[0].message.value, env, reading)
      case Crashed => Faulted
      case Handled(s, rc) =>
        if rc == SUCCESS then Turned(CapState(s, c.inbox[1..], false), 1, SUCCESS)
        else Turned(CapState(s, c.inbox[1..], reading == AsWritten), 0, rc)
  }

  /** What one entry does to the server. */
  function Answer(s: Server, e: Entry, env: CapEnv): (r: (Server, ServerError)) {
    if e.message.None? then (s, SUCCESS)
    else var h := HandleCap(s, e.message.value, env, Documented); (h.server, h.error)
  }

  /** The requests that are safe and succeed: they change the registry, and their reply can be written. */
  predicate Welcome(s: Server, m: Message, env: CapEnv) {
    m.data != [] && m.origin != [] &&
    match KindOf(m.data)
    case Subscribe =>
      var groups := ParseSubscription(m.data);
      && groups.Ok? && !Exhausted(m.data[2..], groups.value.list, m.data[1])
      && !Registered(s.workers, CStr(m.origin)) && env.pipesOk && env.reply.Ok?
    case Unsubscribe => Registered(s.workers, CStr(m.origin))
    case _ => false
  }

  /**
   A call does what is documented iff it cannot start, or the inbox is empty or holds a single message whose request
   is welcome; one failed request is enough to block every later call.
   */
  lemma CapOnceFaithfulIff(c: CapState, env: CapEnv)
    ensures CapOnce(c, env, AsWritten) == CapOnce(c, env, Documented) <==>
            c.locked || c.inbox == []
            || (|c.inbox| == 1 && c.inbox[0].message.Some? && Welcome(c.server, c.inbox[0].message.value, env))
    ensures var r := CapOnce(c, env, AsWritten);
            r.Turned? && r.error != SUCCESS ==> forall later :: CapOnce(r.state, later, AsWritten) == Blocked
  {
    if c.inbox != [] && c.inbox[0].message.Some? {
      CapSafeIff(c.server, c.inbox[0].message.value, env);
      WelcomeIff(c.server, c.inbox[0].message.value, env);
    }
  }

  /** A request is welcome iff it is safe and its documented answer is a success. */
  lemma WelcomeIff(s: Server, m: Message, env: CapEnv)
    ensures Welcome(s, m, env) <==> SafeRequest(s, m, env) && HandleCap(s, m, env, Documented).error == SUCCESS
  {
    hide Assignment, TxPath, RxPath, Reply, NewWorker;
    var groups := ParseSubscription(m.data);
    if KindOf(m.data) == Kind.Subscribe && groups.Ok? {
      AnnouncedGroups(m.data, groups.value);
    }
  }

  /** A message without a name or a payload, or whose payload is neither a 1 nor a 2, changes nothing. */
  lemma OtherRequests(s: Server, m: Message, env: CapEnv, reading: Reading)
    requires m.origin == [] || m.data == [] || (m.data[0] != 1 && m.data[0] != 2)
    ensures HandleCap(s, m, env, reading) == Handled(s, ServerError.BAD_PACKET)
  {
  }

  /** A complete group list: as many groups as announced, and the payload starts with them. */
  ghost predicate CompleteList(payload: Data, groups: seq<Data>)
    requires |payload| >= 2
  {
    Short(groups) && |groups| == payload[1] && GroupBytes(groups) <= payload[2..]
  }

  /** As documented a subscription without a complete group list is a bad packet and registers nobody. */
  lemma IncompleteSubscription(s: Server, m: Message, env: CapEnv)
    requires m.origin != [] && m.data != [] && m.data[0] == 1
    requires |m.data| < 2 || forall groups :: !CompleteList(m.data, groups)
    ensures HandleCap(s, m, env, Documented) == Handled(s, ServerError.BAD_PACKET)
  {
    hide ParseGroups, Enrol, CStr, CompleteList;
    if |m.data| >= 2 {
      ParseFailure(m.data[2..], m.data[1]);
      CompleteListParses(m.data);
    }
  }

  /**
   As written a subscription crashes exactly when its payload has room for a count and it has no complete group list,
   its name is taken or its FIFOs cannot be created.
   */
  lemma SubscriptionCrashesIff(s: Server, m: Message, env: CapEnv)
    requires m.origin != [] && m.data != [] && m.data[0] == 1
    ensures HandleCap(s, m, env, AsWritten) == Crashed <==>
            |m.data| >= 2 && ((forall groups :: !CompleteList(m.data, groups))
                              || Registered(s.workers, CStr(m.origin)) || !env.pipesOk)
    ensures |m.data| < 2 ==> HandleCap(s, m, env, AsWritten) == Handled(s, ServerError.BAD_PACKET)
  {
    hide ParseGroups, CStr, CompleteList, Assignment, TxPath, RxPath;
    if |m.data| >= 2 {
      CompleteListParses(m.data);
    }
  }

  /** Parsing delivers what was announced iff there is a complete group list. */
  lemma CompleteListParses(payload: Data)
    requires |payload| >= 2
    ensures var r := ParseGroups(payload[2..], payload[1]);
            && (r.Ok? ==> |r.value| <= payload[1])
            && (r.Ok? && |r.value| == payload[1] <==> exists groups :: CompleteList(payload, groups))
  {
    hide ParseGroups;
    var rest, left := payload[2..], payload[1];
    var r := ParseGroups(rest, left);
    if r.Ok? {
      GroupsParsedIff(rest, left, r.value);
      assert |r.value| == left ==> CompleteList(payload, r.value);
    }
    forall groups | CompleteList(payload, groups) ensures r == Ok(groups) && |groups| == left {
      GroupsParsedIff(rest, left, groups);
    }
  }

  /** As written an unsubscription crashes exactly when others are registered, but not the client. */
  lemma UnsubscriptionCrashesIff(s: Server, m: Message, env: CapEnv)
    requires m.origin != [] && m.data != [] && m.data[0] == 2
    ensures HandleCap(s, m, env, AsWritten) == Crashed
            <==> |s.workers| > 0 && forall w :: w in s.workers ==> w.id != CStr(m.origin)
    ensures |s.workers| == 0 ==> HandleCap(s, m, env, AsWritten) == Handled(s, WORKER_NOT_FOUND)
  {
    hide CStr;
  }

  /** What unsubscribing does as documented: the client's worker goes, and nothing else changes. */
  lemma UnsubscriptionAnswered(s: Server, m: Message, env: CapEnv)
    requires UniqueIds(s.workers) && m.origin != [] && m.data != [] && m.data[0] == 2
    ensures var h, client := HandleCap(s, m, env, Documented), CStr(m.origin);
            && h.error == (if Registered(s.workers, client) then SUCCESS else WORKER_NOT_FOUND)
            && h.server == s.(workers := h.server.workers)
            && forall w :: w in h.server.workers <==> w in s.workers && w.id != client
  {
    hide CStr;
    StopShape(s.workers, CStr(m.origin));
  }

  /** An error that the CAP listener queued is counted and skipped. */
  lemma ErrorEntrySkipped(c: CapState, error: ServerError, rest: seq<Entry>, env: CapEnv)
    requires !c.locked && c.inbox == [Entry(None, error)] + rest
    ensures CapOnce(c, env, Documented) == Turned(c.(inbox := rest), 1, SUCCESS)
  {
    assert c.inbox[1..] == rest;
  }

  // Inputs for each way in which the calls as written go wrong.

  const EMPTY: Server := Server([], [], [], [], [])

  /** Two entries, or one that carries an error. */
  lemma CapOnceFaults(e: Entry, env: CapEnv)
    ensures CapOnce(CapState(EMPTY, [e, e], false), env, AsWritten) == Faulted
    ensures e.message.None? ==> CapOnce(CapState(EMPTY, [e], false), env, AsWritten) == Faulted
  {
  }

  /** A message without a payload: it fails, and the mutex stays locked. */
  lemma CapOnceLocks(env: CapEnv)
    ensures var e := Entry(Some(Message(VERSION_1, [97], [], 60, 0, 0, [])), SUCCESS);
            CapOnce(CapState(EMPTY, [e], false), env, AsWritten)
            == Turned(CapState(EMPTY, [], true), 0, ServerError.BAD_PACKET)
    ensures CapOnce(CapState(EMPTY, [], true), env, AsWritten) == Blocked
  {
  }

  /** The client b unsubscribes while only a is registered. */
  lemma UnsubscriptionCrashes(env: CapEnv)
    ensures var s := EMPTY.(workers := [NewWorker([97], [], [], [])]);
            var m := Message(VERSION_1, [98], [], 60, 0, 0, UNSUBSCRIPTION_PAYLOAD);
            && HandleCap(s, m, env, AsWritten) == Crashed
            && HandleCap(s, m, env, Documented) == Handled(s, WORKER_NOT_FOUND)
  {
    var ws := [NewWorker([97], [], [], [])];
    CStrOfClean([98]);
    assert forall w :: w in ws ==> w.id == [97];
  }

  /** A subscription that announces one group of five bytes and ends there: the parser frees a pointer it never set. */
  lemma CutGroupCrashes(env: CapEnv)
    ensures var m := Message(VERSION_1, [97], [], 60, 0, 0, [SUBSCRIPTION, 1, 5]);
            && HandleCap(EMPTY, m, env, AsWritten) == Crashed
            && HandleCap(EMPTY, m, env, Documented) == Handled(EMPTY, ServerError.BAD_PACKET)
  {
    var payload: Data := [SUBSCRIPTION, 1, 5];
    assert payload[2..] == [5] && ParseGroups(payload[2..], 1) == Err(Error.BAD_PACKET);
  }

  /** A subscription without groups, when the FIFOs cannot be created: the reply is made of freed paths. */
  lemma MissingPipesCrash(reply: Result<()>)
    ensures var m := Message(VERSION_1, [97], [], 60, 0, 0, [SUBSCRIPTION, 0]);
            && HandleCap(EMPTY, m, CapEnv(false, reply), AsWritten) == Crashed
            && HandleCap(EMPTY, m, CapEnv(false, Ok(())), Documented)
               == Handled(Reply(EMPTY, [97], Assignment(FS, [], [])), SUCCESS)
  {
    hide TxPath, RxPath, Assignment;
    CStrOfClean([97]);
  }

  /** The client a sends b, which is registered too, a message with a lifetime of 0. */
  lemma LifetimeZeroFaults()
    ensures var m := Message(VERSION_1, [97], [98], 0, 0, 0, []);
            var a := NewWorker([97], [], [], []).(inbox := [Entry(Some(m), SUCCESS)]);
            var s := EMPTY.(workers := [a, NewWorker([98], [], [], [])]);
            DrainFaults(s, 0) && Drain(s, 0, map[]).error == SUCCESS
  {
    var m := Message(VERSION_1, [97], [98], 0, 0, 0, []);
    var a := NewWorker([97], [], [], []).(inbox := [Entry(Some(m), SUCCESS)]);
    var b := NewWorker([98], [], [], []);
    var ws := [a, b];
    CStrOfClean([98]);
    hide CStr;
    assert b in ws && b.subscriptions == [[98]] && b.Matches(m.remote);
    assert a.subscriptions == [[97]] && !a.Matches(m.remote);
    assert ws[1..] == [b] && [b][1..] == [];
    assert DispatchTo([], [97], m, map[]).error == SUCCESS;
    assert DispatchTo([b], [97], m, map[]).error == SUCCESS;
    assert Dispatch(ws, [97], m, map[]).error == SUCCESS;
  }

  /** One call within process_cap_all: what the CAP listener queues before it, and its environment. */
  datatype CapPass = CapPass(arrivals: seq<Entry>, env: CapEnv)

  const CALM: CapPass := CapPass([], NO_TROUBLE)

  function PassAt(passes: seq<CapPass>): CapPass {
    if passes == [] then CALM else passes[0]
  }

  function Rest(passes: seq<CapPass>): (r: seq<CapPass>) {
    if passes == [] then [] else passes[1..]
  }

  /**
   octopipes_server_process_cap_all. As written, its test of the inbox pointer makes it return at once, always.
   After the given passes nothing arrives and nothing goes wrong.
   */
  function CapAll(c: CapState, passes: seq<CapPass>, reading: Reading): (r: CapTurn)
    decreases |passes|, |c.inbox|
  {
    if reading == AsWritten then Turned(c, 0, ServerError.UNINITIALIZED)
    else
      match CapOnce(c.(inbox := c.inbox + PassAt(passes).arrivals), PassAt(passes).env, reading)
      case Turned(next, n, rc) =>
        if rc != SUCCESS then Turned(next, 0, rc)
        else if n == 0 then Turned(next, 0, SUCCESS)
        else
          var later := CapAll(next, Rest(passes), reading);
          if later.Turned? then later.(requests := n + later.requests) else later
      case other => other
  }

  /** The requests answered one after the other until one of them fails. */
  function Answers(s: Server, q: seq<Entry>, passes: seq<CapPass>): (r: (Server, seq<Entry>, ServerError))
    decreases |q|
  {
    if q == [] then (s, [], SUCCESS)
    else
      var (t, rc) := Answer(s, q[0], PassAt(passes).env);
      if rc != SUCCESS then (t, q[1..], rc) else Answers(t, q[1..], Rest(passes))
  }

  /** What the listener queues before the first n calls. */
  function Arrived(passes: seq<CapPass>, n: nat): (q: seq<Entry>)
    decreases n
  {
    if n == 0 then [] else PassAt(passes).arrivals + Arrived(Rest(passes), n - 1)
  }

  /**
   As documented, the CAP inbox and what arrives during the call are answered in order, each entry once, until a
   request fails; on success nothing is left and every entry was counted.
   */
  lemma {:induction false} CapAllAnswers(c: CapState, passes: seq<CapPass>)
    requires !c.locked
    ensures var r := CapAll(c, passes, Documented);
            r.Turned? &&
            var all := c.inbox + Arrived(passes, r.requests + 1);
            var a := Answers(c.server, all, passes);
            && r.state == CapState(a.0, a.1, false) && r.error == a.2
            && (r.error == SUCCESS ==> r.requests == |all| && r.state.inbox == [])
            && (r.error != SUCCESS ==> r.requests + 1 + |r.state.inbox| == |all|)
    decreases |passes|, |c.inbox|
  {
    hide HandleCap, Answer, CapAll, Answers, Arrived, PassAt, Rest;
    var now := c.(inbox := c.inbox + PassAt(passes).arrivals);
    var r := CapOnce(now, PassAt(passes).env, Documented);
    CapPassAnswers(now, PassAt(passes).env);
    CapAllStep(c, passes);
    if now.inbox != [] && r.error == SUCCESS {
      PassesShrink(c.inbox, passes);
      CapAllAnswers(r.state, Rest(passes));
      var n := CapAll(r.state, Rest(passes), Documented).requests + 1;
      ArrivedFirst(c.inbox, passes, n);
      AnswersStep(c.server, now.inbox, Arrived(Rest(passes), n), passes);
    } else {
      ArrivedFirst(c.inbox, passes, 0);
      AnswersStep(c.server, now.inbox, [], passes);
    }
  }

  lemma CapPassAnswers(c: CapState, env: CapEnv)
    requires !c.locked
    ensures CapOnce(c, env, Documented) ==
            if c.inbox == [] then Turned(c, 0, SUCCESS)
            else
              var (t, rc) := Answer(c.server, c.inbox[0], env);
              Turned(CapState(t, c.inbox[1..], false), if rc == SUCCESS then 1 else 0, rc)
  {
    hide HandleCap;
  }

  lemma CapAllStep(c: CapState, passes: seq<CapPass>)
    requires !c.locked
    ensures var r := CapOnce(c.(inbox := c.inbox + PassAt(passes).arrivals), PassAt(passes).env, Documented);
            r.Turned? && !r.state.locked &&
            CapAll(c, passes, Documented)
            == if r.error != SUCCESS || r.requests == 0 then r.(requests := 0)
               else
                 var later := CapAll(r.state, Rest(passes), Documented);
                 if later.Turned? then later.(requests := r.requests + later.requests) else later
  {
    hide HandleCap, CapOnce, Answer, PassAt, Rest;
    CapPassAnswers(c.(inbox := c.inbox + PassAt(passes).arrivals), PassAt(passes).env);
  }

  lemma PassesShrink(q: seq<Entry>, passes: seq<CapPass>)
    ensures |Rest(passes)| < |passes| || (Rest(passes) == passes && q + PassAt(passes).arrivals == q)
  {
  }

  lemma AnswersStep(s: Server, q: seq<Entry>, later: seq<Entry>, passes: seq<CapPass>)
    ensures q == [] && later == [] ==> Answers(s, q + later, passes) == (s, [], SUCCESS)
    ensures q != [] ==>
              var (t, rc) := Answer(s, q[0], PassAt(passes).env);
              Answers(s, q + later, passes)
              == if rc != SUCCESS then (t, q[1..] + later, rc) else Answers(t, q[1..] + later, Rest(passes))
  {
    hide Answer;
    if q != [] {
      assert (q + later)[1..] == q[1..] + later;
    }
  }

  lemma ArrivedFirst(q: seq<Entry>, passes: seq<CapPass>, n: nat)
    ensures q + Arrived(passes, n + 1) == (q + PassAt(passes).arrivals) + Arrived(Rest(passes), n)
    ensures q + Arrived(passes, 1) == (q + PassAt(passes).arrivals) + []
  {
    hide PassAt, Rest;
    assert Arrived(Rest(passes), 0) == [];
    assert Arrived(passes, n + 1) == PassAt(passes).arrivals + Arrived(Rest(passes), n);
    assert Arrived(passes, 1) == PassAt(passes).arrivals + [];
  }

  /** As written the call never does what is documented, not even on an empty inbox, where it reports an error. */
  lemma CapAllNeverFaithful(c: CapState, passes: seq<CapPass>)
    requires SendResult(PassAt(passes).env.reply)
    ensures CapAll(c, passes, AsWritten) == Turned(c, 0, ServerError.UNINITIALIZED)
    ensures CapAll(c, passes, AsWritten) != CapAll(c, passes, Documented)
  {
    hide HandleCap, CapOnce, PassAt, Rest, Answer;
    if c.locked {
      LockedBlocks(c, passes);
    } else {
      var now := c.(inbox := c.inbox + PassAt(passes).arrivals);
      CapAllStep(c, passes);
      CapPassAnswers(now, PassAt(passes).env);
      if now.inbox != [] {
        AnswerError(c.server, now.inbox[0], PassAt(passes).env);
      }
    }
  }

  lemma LockedBlocks(c: CapState, passes: seq<CapPass>)
    requires c.locked
    ensures CapAll(c, passes, Documented) == Blocked
  {
  }

  lemma AnswerError(s: Server, e: Entry, env: CapEnv)
    requires SendResult(env.reply)
    ensures Answer(s, e, env).1 != ServerError.UNINITIALIZED
  {
    hide Assignment, TxPath, RxPath, Reply, NewWorker, ParseGroups;
    if e.message.Some? && |e.message.value.data| >= 2 {
      ParseFailure(e.message.value.data[2..], e.message.value.data[1]);
    }
  }

  // ----- Runs -----

  /** What can happen next: a listener queues, the main thread takes from inbox i, or it handles a CAP request. */
  datatype Step =
    | Pushing(id: Name, entry: Entry)
    | Draining(i: nat, refused: Refusals)
    | Controlling(m: Message, env: CapEnv)

  function StepTo(s: Server, step: Step): (r: Server) {
    match step
    case Pushing(id, e) => Push(s, id, e)
    case Draining(i, refused) => if i < |s.workers| then Drain(s, i, refused).server else s
    case Controlling(m, env) => HandleCap(s, m, env, Documented).server
  }

  function Run(s: Server, steps: seq<Step>): (r: Server)
    decreases |steps|
  {
    if steps == [] then s else Run(StepTo(s, steps[0]), steps[1..])
  }

  lemma {:induction false} RunConcat(s: Server, a: seq<Step>, b: seq<Step>)
    ensures Run(s, a + b) == Run(Run(s, a), b)
    decreases |a|
  {
    if a == [] {
      assert a + b == b;
    } else {
      assert (a + b)[1..] == a[1..] + b;
      RunConcat(StepTo(s, a[0]), a[1..], b);
    }
  }

  // ----- Entries along a run -----

  /** Whatever was queued or taken has a message and no error, or an error and no message. */
  predicate AllValid(s: Server) {
    EntriesOk(s.workers) && forall d :: d in s.drained ==> d.1.Valid()
  }

  predicate PushesValid(steps: seq<Step>) {
    forall step :: step in steps && step.Pushing? ==> step.entry.Valid()
  }

  lemma StopKeepsEntries(ws: seq<Worker>, id: Name)
    requires EntriesOk(ws)
    ensures EntriesOk(Stop(ws, id).0)
  {
  }

  lemma CapKeepsEntries(s: Server, m: Message, env: CapEnv)
    requires EntriesOk(s.workers)
    ensures var r := HandleCap(s, m, env, Documented).server; EntriesOk(r.workers) && r.drained == s.drained
  {
    hide Assignment, ParseGroups, TxPath, RxPath;
    var client := CStr(m.origin);
    StopKeepsEntries(s.workers, client);
    if KindOf(m.data) == Kind.Subscribe && ParseSubscription(m.data).Ok? {
      var list := ParseSubscription(m.data).value.list;
      var w := NewWorker(client, list, TxPath(s.folder, client), RxPath(s.folder, client));
      StopKeepsEntries(Start(s.workers, w, env.pipesOk).0, client);
    }
  }

  lemma StepKeepsEntries(s: Server, step: Step)
    requires AllValid(s) && (step.Pushing? ==> step.entry.Valid())
    ensures AllValid(StepTo(s, step))
  {
    match step
    case Pushing(id, e) =>
    case Draining(i, refused) =>
      if i < |s.workers| && s.workers[i].inbox != [] {
        assert s.workers[i].inbox[0].Valid();
      }
    case Controlling(m, env) => CapKeepsEntries(s, m, env);
  }

  /** When listeners queue what Listen yields, every entry queued or taken in a run is of one of the two kinds. */
  lemma {:induction false} EntriesAlongRun(s: Server, steps: seq<Step>)
    requires AllValid(s) && PushesValid(steps)
    ensures AllValid(Run(s, steps))
    decreases |steps|
  {
    if steps != [] {
      assert steps[0] in steps;
      StepKeepsEntries(s, steps[0]);
      EntriesAlongRun(StepTo(s, steps[0]), steps[1..]);
    }
  }

  // ----- The registry along a run -----

  /** Each worker was made by the CAP: its own name is its last subscription, its paths come from its name. */
  predicate Proper(folder: Name, w: Worker) {
    && w.subscriptions != [] && w.subscriptions[|w.subscriptions| - 1] == w.id
    && w.pipeRead == TxPath(folder, w.id) && w.pipeWrite == RxPath(folder, w.id)
  }

  predicate RegistryOk(folder: Name, ws: seq<Worker>) {
    UniqueIds(ws) && forall w :: w in ws ==> Proper(folder, w)
  }

  lemma StopShape(ws: seq<Worker>, id: Name)
    requires UniqueIds(ws)
    ensures UniqueIds(Stop(ws, id).0)
    ensures forall w :: w in Stop(ws, id).0 <==> w in ws && w.id != id
  {
    var i := IndexOf(ws, id);
    var r := Stop(ws, id).0;
    if i < |ws| {
      assert forall j :: 0 <= j < |r| ==> r[j] == ws[if j < i then j else j + 1];
      forall w | w in ws && w.id != id ensures w in r {
        var j :| 0 <= j < |ws| && ws[j] == w;
        assert r[if j < i then j else j - 1] == w;
      }
    } else {
      assert forall w :: w in ws ==> w.id != id;
    }
  }

  lemma InboxKeepsRegistry(folder: Name, ws: seq<Worker>, i: nat, inbox: seq<Entry>)
    requires RegistryOk(folder, ws) && i < |ws|
    ensures RegistryOk(folder, ws[i := ws[i].(inbox := inbox)])
  {
    var r := ws[i := ws[i].(inbox := inbox)];
    assert ws[i] in ws;
    assert forall j :: 0 <= j < |ws| && j != i ==> r[j] == ws[j] && ws[j] in ws;
  }

  lemma CapKeepsRegistry(s: Server, m: Message, env: CapEnv)
    requires RegistryOk(s.folder, s.workers)
    ensures var r := HandleCap(s, m, env, Documented).server;
            RegistryOk(s.folder, r.workers) && r.folder == s.folder
  {
    hide Assignment, ParseGroups, CStr, TxPath, RxPath;
    var client := CStr(m.origin);
    StopShape(s.workers, client);
    if KindOf(m.data) == Kind.Subscribe && ParseSubscription(m.data).Ok? {
      var list := ParseSubscription(m.data).value.list;
      var w := NewWorker(client, list, TxPath(s.folder, client), RxPath(s.folder, client));
      var (ws, rc) := Start(s.workers, w, env.pipesOk);
      if rc == SUCCESS {
        assert forall v :: v in s.workers ==> v.id != client;
        assert UniqueIds(ws) && Proper(s.folder, w);
        StopShape(ws, client);
      }
    }
  }

  lemma StepKeepsRegistry(s: Server, step: Step)
    requires RegistryOk(s.folder, s.workers)
    ensures var r := StepTo(s, step); RegistryOk(s.folder, r.workers) && r.folder == s.folder
  {
    match step
    case Pushing(id, e) =>
      var i := IndexOf(s.workers, id);
      if i < |s.workers| {
        InboxKeepsRegistry(s.folder, s.workers, i, s.workers[i].inbox + [e]);
      }
    case Draining(i, refused) =>
      if i < |s.workers| && s.workers[i].inbox != [] {
        InboxKeepsRegistry(s.folder, s.workers, i, s.workers[i].inbox[1..]);
      }
    case Controlling(m, env) => CapKeepsRegistry(s, m, env);
  }

  /** Every run keeps names unique, and all pipe paths of all workers pairwise distinct. */
  lemma {:induction false} RegistryAlongRun(s: Server, steps: seq<Step>)
    requires RegistryOk(s.folder, s.workers)
    ensures var r := Run(s, steps); RegistryOk(s.folder, r.workers) && r.folder == s.folder
    ensures PathsDistinct(Run(s, steps).workers)
    decreases |steps|
  {
    if steps == [] {
      ProperPathsDistinct(s.folder, s.workers);
    } else {
      StepKeepsRegistry(s, steps[0]);
      RegistryAlongRun(StepTo(s, steps[0]), steps[1..]);
    }
  }

  lemma ProperPathsDistinct(folder: Name, ws: seq<Worker>)
    requires RegistryOk(folder, ws)
    ensures PathsDistinct(ws)
  {
    forall i, j | 0 <= i < |ws| && 0 <= j < |ws|
      ensures ws[i].pipeRead != ws[j].pipeWrite
      ensures i != j ==> ws[i].pipeRead != ws[j].pipeRead && ws[i].pipeWrite != ws[j].pipeWrite
    {
      PathsInjective(folder, ws[i].id, ws[j].id);
      assert ws[i] in ws && ws[j] in ws;
    }
  }

  predicate PathsDistinct(ws: seq<Worker>) {
    forall i, j :: 0 <= i < |ws| && 0 <= j < |ws| ==>
      && ws[i].pipeRead != ws[j].pipeWrite
      && (i != j ==> ws[i].pipeRead != ws[j].pipeRead && ws[i].pipeWrite != ws[j].pipeWrite)
  }

  // ----- The registry as an insertion-ordered map -----

  /** Starting a fresh worker and stopping it again is the identity, whatever is registered. */
  lemma StartThenStop(ws: seq<Worker>, w: Worker)
    ensures Start(ws, w, true).1 == SUCCESS <==> !Registered(ws, w.id)
    ensures !Registered(ws, w.id) ==> Stop(Start(ws, w, true).0, w.id) == (ws, SUCCESS)
  {
    if !Registered(ws, w.id) {
      var r := ws + [w];
      assert r[|ws|] in r;
      var i := IndexOf(r, w.id);
      assert i == |ws|;
      assert r[..i] + r[i + 1..] == ws;
    }
  }

  /** Names in registration order: what octopipes_server_get_clients returns. */
  function Clients(ws: seq<Worker>): (ids: seq<Name>) {
    seq(|ws|, i requires 0 <= i < |ws| => ws[i].id)
  }

  /** Stopping removes one name and keeps the order of the others; the stopped name is gone. */
  lemma StopRemovesOne(ws: seq<Worker>, id: Name)
    requires UniqueIds(ws) && Registered(ws, id)
    ensures var i := IndexOf(ws, id);
            Clients(Stop(ws, id).0) == Clients(ws)[..i] + Clients(ws)[i + 1..]
    ensures !Registered(Stop(ws, id).0, id)
    ensures forall other :: other != id ==> (Registered(Stop(ws, id).0, other) <==> Registered(ws, other))
  {
    StopCuts(ws, id);
    StopLeaves(ws, id);
  }

  lemma StopCuts(ws: seq<Worker>, id: Name)
    requires Registered(ws, id)
    ensures var i := IndexOf(ws, id);
            Clients(Stop(ws, id).0) == Clients(ws)[..i] + Clients(ws)[i + 1..]
  {
    hide IndexOf, Registered;
    var i, r := IndexOf(ws, id), Stop(ws, id).0;
    assert forall j :: 0 <= j < |r| ==> r[j] == ws[if j < i then j else j + 1];
  }

  lemma StopLeaves(ws: seq<Worker>, id: Name)
    requires UniqueIds(ws)
    ensures !Registered(Stop(ws, id).0, id)
    ensures forall other :: other != id ==> (Registered(Stop(ws, id).0, other) <==> Registered(ws, other))
  {
    hide Stop, UniqueIds;
    StopShape(ws, id);
  }
}
