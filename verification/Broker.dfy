/** The routing server of src/server.c as a function of its state: registry, inboxes, dispatch and drains. */
module Broker {
  import opened Bytes
  import opened Types
  import opened Frame
  import FrameLaws

  /** The codes of OctopipesServerError that the modelled functions return. */
  datatype ServerError =
    | SUCCESS | BAD_ALLOC | UNINITIALIZED | BAD_PACKET | BAD_CHECKSUM | UNSUPPORTED_VERSION | OPEN_FAILED
    | WRITE_FAILED | READ_FAILED | CAP_TIMEOUT | THREAD_ERROR | WORKER_EXISTS | WORKER_NOT_FOUND
    | NO_RECIPIENT | UNKNOWN

  function ToServerError(e: Error): (r: ServerError)
    ensures r != SUCCESS
  {
    match e
    case BAD_ALLOC => ServerError.BAD_ALLOC
    case BAD_CHECKSUM => ServerError.BAD_CHECKSUM
    case BAD_PACKET => ServerError.BAD_PACKET
    case CAP_TIMEOUT => ServerError.CAP_TIMEOUT
    case OPEN_FAILED => ServerError.OPEN_FAILED
    case READ_FAILED => ServerError.READ_FAILED
    case THREAD => THREAD_ERROR
    case UNINITIALIZED => ServerError.UNINITIALIZED
    case UNSUPPORTED_VERSION => ServerError.UNSUPPORTED_VERSION
    case WRITE_FAILED => ServerError.WRITE_FAILED
    case _ => UNKNOWN
  }

  // ----- What a listener queues -----

  /** OctopipesServerMessage. */
  datatype Entry = Entry(message: Option<Message>, error: ServerError)
  {
    /** Either a version-1 message and no error, or an error and no message. */
    predicate Valid() {
      (message.Some? <==> error == SUCCESS) && (message.Some? ==> message.value.version == VERSION_1)
    }
  }

  /**
   Undefined: the C code has read beyond its input, or queues a pointer to a record that was freed, which is followed
   when the entry is taken from the inbox or thrown away with it.
   */
  datatype Arrival = Nothing | Queued(entry: Entry) | Undefined

  /**
   One turn of worker_loop and cap_loop. When decoding fails, the source queues the pointer to the record
   that the decoder has already freed; documented is an entry that holds the error and no message.
   */
  function Listen(read: Result<Data>, reading: Reading): (r: Arrival)
    ensures r.Queued? ==> r.entry.Valid()
  {
    match read
    case Err(e) => if e == NO_DATA_AVAILABLE then Nothing else Queued(Entry(None, ToServerError(e)))
    case Ok(b) =>
      match Decode(b, reading)
      case Decoded(m) => Queued(Entry(Some(m), SUCCESS))
      case Rejected(e) => if reading == AsWritten then Undefined else Queued(Entry(None, ToServerError(e)))
      case Overread => Undefined
  }

  /** Codes keep their names where the server has them; the others become UNKNOWN. */
  lemma ErrorsKeepNames()
    ensures ToServerError(Error.BAD_ALLOC) == ServerError.BAD_ALLOC
    ensures ToServerError(Error.BAD_CHECKSUM) == ServerError.BAD_CHECKSUM
    ensures ToServerError(Error.BAD_PACKET) == ServerError.BAD_PACKET
    ensures ToServerError(Error.CAP_TIMEOUT) == ServerError.CAP_TIMEOUT
    ensures ToServerError(Error.OPEN_FAILED) == ServerError.OPEN_FAILED
    ensures ToServerError(Error.READ_FAILED) == ServerError.READ_FAILED
    ensures ToServerError(THREAD) == THREAD_ERROR
    ensures ToServerError(Error.UNINITIALIZED) == ServerError.UNINITIALIZED
    ensures ToServerError(Error.UNSUPPORTED_VERSION) == ServerError.UNSUPPORTED_VERSION
    ensures ToServerError(Error.WRITE_FAILED) == ServerError.WRITE_FAILED
    ensures ToServerError(NO_DATA_AVAILABLE) == ToServerError(NOT_SUBSCRIBED) == ToServerError(NOT_UNSUBSCRIBED)
         == ToServerError(UNKNOWN_ERROR) == UNKNOWN
  {
  }

  /** A failed read is queued as its error, unless there just was nothing to read; in either reading. */
  lemma ListenFailures(e: Error, reading: Reading)
    ensures Listen(Err(e), reading) == Nothing <==> e == NO_DATA_AVAILABLE
    ensures Listen(Err(Error.OPEN_FAILED), reading) == Queued(Entry(None, ServerError.OPEN_FAILED))
    ensures Listen(Err(Error.READ_FAILED), reading) == Queued(Entry(None, ServerError.READ_FAILED))
    ensures Listen(Err(Error.BAD_ALLOC), reading) == Queued(Entry(None, ServerError.BAD_ALLOC))
  {
  }

  /** As documented, a buffer that does not decode is queued as the decoder's error. */
  lemma ListenRejects(b: Data)
    ensures match Decode(b, Documented)
            case Rejected(BAD_PACKET) =>
              Listen(Ok(b), Documented) == Queued(Entry(None, ServerError.BAD_PACKET))
            case Rejected(BAD_CHECKSUM) =>
              Listen(Ok(b), Documented) == Queued(Entry(None, ServerError.BAD_CHECKSUM))
            case Rejected(e) =>
              e == Error.UNSUPPORTED_VERSION
              && Listen(Ok(b), Documented) == Queued(Entry(None, ServerError.UNSUPPORTED_VERSION))
            case Decoded(m) => Listen(Ok(b), Documented) == Queued(Entry(Some(m), SUCCESS))
            case Overread => false
  {
  }

  /** The reads after which a listener does what it is documented to do. */
  predicate Readable(read: Result<Data>) {
    read.Err? || Decode(read.value, Documented).Decoded?
  }

  /**
   A listener does what is documented iff the read failed or carries a documented frame. It is safe on these and on
   the truncated frames that decoding accepts as written, whose message it queues instead of an error.
   */
  lemma ListenSafeIff(read: Result<Data>)
    ensures Listen(read, AsWritten) == Listen(read, Documented) <==> Readable(read)
    ensures Listen(read, Documented) != Undefined
    ensures Listen(read, AsWritten) != Undefined <==> Readable(read) || AcceptedShort(read)
    ensures !(Readable(read) && AcceptedShort(read))
    ensures AcceptedShort(read) ==>
              && Listen(read, AsWritten).entry.message.Some?
              && Listen(read, Documented) == Queued(Entry(None, ServerError.BAD_PACKET))
  {
    if read.Ok? {
      FrameLaws.ReadingsDifferExactlyWhen(read.value);
    }
  }

  /** A truncated frame that the source accepts. */
  predicate AcceptedShort(read: Result<Data>) {
    read.Ok? && FrameLaws.Truncated(read.value) && Decode(read.value, AsWritten).Decoded?
  }

  /** One unreadable byte is enough to make a listener queue a record that was freed. */
  lemma UnreadableByteUndefined(b: byte)
    ensures Listen(Ok([b]), AsWritten) == Undefined
    ensures Listen(Ok([b]), Documented) == Queued(Entry(None, ServerError.BAD_PACKET))
  {
  }

  /** The short frame of ShortFrameAccepted: a message as written, an error as documented. */
  lemma ShortFrameQueued()
    ensures var m := Message(VERSION_1, [], [], 0, IGNORE_CHECKSUM, 0, [ETX]);
            Listen(Ok(Stem(m, 0)), AsWritten) == Queued(Entry(Some(m), SUCCESS)) && AcceptedShort(Ok(Stem(m, 0)))
  {
    FrameLaws.ShortFrameAccepted();
    FrameLaws.ReadingsDifferExactlyWhen(Stem(Message(VERSION_1, [], [], 0, IGNORE_CHECKSUM, 0, [ETX]), 0));
  }

  // ----- The registry -----

  datatype Worker = Worker(id: Name, subscriptions: seq<Name>, pipeRead: Name, pipeWrite: Name, inbox: seq<Entry>)
  {
    /** worker_match_subscription: strcmp against every subscription. */
    predicate Matches(remote: Data) {
      CStr(remote) in subscriptions
    }
  }

  /** A frame written to the pipe of a client: from the worker it was read by, to the worker it was sent by. */
  datatype Sent = Sent(from: Name, to: Name, message: Message)

  /**
   The server, with three logs: entries taken from inboxes, frames written to clients, replies written to
   the CAP.
   */
  datatype Server = Server(folder: Name, workers: seq<Worker>, drained: seq<(Name, Entry)>, sent: seq<Sent>,
                           replies: seq<Data>)

  predicate Registered(ws: seq<Worker>, id: Name) {
    exists w :: w in ws && w.id == id
  }

  predicate UniqueIds(ws: seq<Worker>) {
    forall i, j :: 0 <= i < j < |ws| ==> ws[i].id != ws[j].id
  }

  /** Position of the first worker with this id, or |ws|. */
  function IndexOf(ws: seq<Worker>, id: Name): (i: nat)
    ensures i <= |ws|
    ensures i < |ws| <==> Registered(ws, id)
    ensures i < |ws| ==> ws[i].id == id
    ensures forall j :: 0 <= j < i ==> ws[j].id != id
  {
    if ws == [] then 0
    else if ws[0].id == id then 0
    else
      var i := IndexOf(ws[1..], id);
      assert forall j :: 1 <= j < |ws| ==> ws[j] == ws[1..][j - 1];
      i + 1
  }

  function NewWorker(id: Name, groups: seq<Data>, pipeRead: Name, pipeWrite: Name): (w: Worker)
    ensures w.subscriptions != [] && w.subscriptions[|w.subscriptions| - 1] == id
  {
    Worker(id, seq(|groups|, i requires 0 <= i < |groups| => CStr(groups[i])) + [id], pipeRead, pipeWrite, [])
  }

  /** octopipes_server_start_worker; pipesOk says that both FIFOs could be created. */
  function Start(ws: seq<Worker>, w: Worker, pipesOk: bool): (r: (seq<Worker>, ServerError)) {
    if Registered(ws, w.id) then (ws, WORKER_EXISTS)
    else if !pipesOk then (ws, ServerError.OPEN_FAILED)
    else (ws + [w], SUCCESS)
  }

  /** Whatever is wrong, the registry stays as it is; a name that is taken is noticed before any FIFO is created. */
  lemma StartReports(ws: seq<Worker>, w: Worker, pipesOk: bool)
    ensures Registered(ws, w.id) ==> Start(ws, w, pipesOk) == (ws, WORKER_EXISTS)
    ensures !Registered(ws, w.id) && !pipesOk ==> Start(ws, w, pipesOk) == (ws, ServerError.OPEN_FAILED)
    ensures !Registered(ws, w.id) && pipesOk ==> Start(ws, w, pipesOk) == (ws + [w], SUCCESS)
  {
  }

  /** octopipes_server_stop_worker. */
  function Stop(ws: seq<Worker>, id: Name): (r: (seq<Worker>, ServerError)) {
    var i := IndexOf(ws, id);
    if i < |ws| then (ws[..i] + ws[i + 1..], SUCCESS) else (ws, WORKER_NOT_FOUND)
  }

  // ----- Inboxes -----

  function Enqueue(ws: seq<Worker>, i: nat, e: Entry): (r: seq<Worker>)
    requires i < |ws|
  {
    ws[i := ws[i].(inbox := ws[i].inbox + [e])]
  }

  predicate EntriesOk(ws: seq<Worker>) {
    forall i, k :: 0 <= i < |ws| && 0 <= k < |ws[i].inbox| ==> ws[i].inbox[k].Valid()
  }

  /** The listener of a registered client queues one entry; a client that is gone has no listener. */
  function Push(s: Server, id: Name, e: Entry): (r: Server) {
    var i := IndexOf(s.workers, id);
    if i < |s.workers| then s.(workers := Enqueue(s.workers, i, e)) else s
  }

  // ----- Dispatch -----

  /** The clients a message cannot be written to, with what pipe_send returns for them. */
  type Refusals = map<Name, Error>

  /** worker_send: the message is encoded again and written. */
  function SendError(w: Worker, m: Message, refused: Refusals): ServerError {
    if m.version != VERSION_1 then ServerError.UNSUPPORTED_VERSION
    else if w.id in refused then ToServerError(refused[w.id])
    else SUCCESS
  }

  datatype Dispatched = Dispatched(sent: seq<Sent>, error: ServerError, client: Option<Name>)

  /** The loop over the workers stops at the first one it cannot send to. */
  function DispatchTo(ws: seq<Worker>, from: Name, m: Message, refused: Refusals): (r: Dispatched) {
    if ws == [] then Dispatched([], SUCCESS, None)
    else if !ws[0].Matches(m.remote) then DispatchTo(ws[1..], from, m, refused)
    else if SendError(ws[0], m, refused) != SUCCESS then
      Dispatched([], SendError(ws[0], m, refused), Some(ws[0].id))
    else
      var r := DispatchTo(ws[1..], from, m, refused);
      r.(sent := [Sent(from, ws[0].id, m)] + r.sent)
  }

  /** octopipes_server_dispatch_message. */
  function Dispatch(ws: seq<Worker>, from: Name, m: Message, refused: Refusals): (r: Dispatched) {
    if m.remote == [] then Dispatched([], NO_RECIPIENT, None) else DispatchTo(ws, from, m, refused)
  }

  /** The same workers but for their inboxes. */
  predicate SameWorkers(ws: seq<Worker>, vs: seq<Worker>) {
    |ws| == |vs| && forall i :: 0 <= i < |ws| ==> ws[i].(inbox := []) == vs[i].(inbox := [])
  }

  /** Dispatching looks at names and subscriptions only. */
  lemma {:induction false} SameDispatch(ws: seq<Worker>, vs: seq<Worker>, from: Name, m: Message, refused: Refusals)
    requires SameWorkers(ws, vs)
    ensures Dispatch(ws, from, m, refused) == Dispatch(vs, from, m, refused)
    ensures DispatchTo(ws, from, m, refused) == DispatchTo(vs, from, m, refused)
  {
    if ws != [] {
      assert ws[0].(inbox := []).id == vs[0].(inbox := []).id;
      SameDispatch(ws[1..], vs[1..], from, m, refused);
    }
  }

  // ----- Drains -----

  /** Result of one turn or of one call; stop says that the loop over the workers must return. */
  datatype Report = Report(server: Server, requests: nat, error: ServerError, client: Option<Name>, stop: bool)

  /** Take the head of one inbox and dispatch it. */
  function Drain(s: Server, i: nat, refused: Refusals): (r: Report)
    requires i < |s.workers|
    ensures |r.server.workers| == |s.workers|
  {
    var w := s.workers[i];
    if w.inbox == [] then Report(s, 0, SUCCESS, None, false)
    else
      var e := w.inbox[0];
      var s' := s.(workers := s.workers[i := w.(inbox := w.inbox[1..])], drained := s.drained + [(w.id, e)]);
      if e.message.None? then Report(s', 1, e.error, None, true)
      else
        var d := Dispatch(s.workers, w.id, e.message.value, refused);
        var s'' := s'.(sent := s.sent + d.sent);
        if d.error != SUCCESS then Report(s'', 0, d.error, d.client, true)
        else Report(s'', 1, SUCCESS, None, false)
  }

  /** The environment of one turn: what listeners queue before the inbox is locked, and who refuses a frame. */
  datatype Turn = Turn(arrivals: seq<(Name, Entry)>, refused: Refusals)

  const QUIET: Turn := Turn([], map[])

  function TurnAt(turns: seq<Turn>, i: nat): Turn {
    if i < |turns| then turns[i] else QUIET
  }

  function Arrive(s: Server, arrivals: seq<(Name, Entry)>): (r: Server)
    ensures |r.workers| == |s.workers|
    decreases |arrivals|
  {
    if arrivals == [] then s else Arrive(Push(s, arrivals[0].0, arrivals[0].1), arrivals[1..])
  }

  /** octopipes_server_process_once from worker i on. */
  function OnceFrom(s: Server, i: nat, turns: seq<Turn>): (r: Report)
    requires i <= |s.workers|
    ensures |r.server.workers| == |s.workers|
    decreases |s.workers| - i
  {
    if i == |s.workers| then Report(s, 0, SUCCESS, None, false)
    else
      var t := TurnAt(turns, i);
      var d := Drain(Arrive(s, t.arrivals), i, t.refused);
      if d.stop then d
      else
        var r := OnceFrom(d.server, i + 1, turns);
        r.(requests := d.requests + r.requests)
  }

  function Once(s: Server, turns: seq<Turn>): (r: Report) {
    OnceFrom(s, 0, turns)
  }

  /** octopipes_server_process_first from worker i on. */
  function FirstFrom(s: Server, i: nat, turns: seq<Turn>): (r: Report)
    requires i <= |s.workers|
    ensures |r.server.workers| == |s.workers|
    decreases |s.workers| - i
  {
    if i == |s.workers| then Report(s, 0, SUCCESS, None, false)
    else
      var t := TurnAt(turns, i);
      var s' := Arrive(s, t.arrivals);
      if s'.workers[i].inbox != [] then Drain(s', i, t.refused) else FirstFrom(s', i + 1, turns)
  }

  // ----- The drains as written -----

  /** Sending a message of no lifetime has pipe_send poll a descriptor that it never opened. */
  predicate SendFaults(m: Message) {
    m.version == VERSION_1 && m.ttl == 0
  }

  /** Some client is to get such a message. */
  predicate DispatchFaults(ws: seq<Worker>, m: Message) {
    SendFaults(m) && m.remote != [] && exists w :: w in ws && w.Matches(m.remote)
  }

  lemma SameFaults(ws: seq<Worker>, vs: seq<Worker>, m: Message)
    requires SameWorkers(ws, vs)
    ensures DispatchFaults(ws, m) <==> DispatchFaults(vs, m)
  {
    forall i | 0 <= i < |ws| ensures ws[i].Matches(m.remote) <==> vs[i].Matches(m.remote) {
      assert ws[i].(inbox := []).subscriptions == vs[i].(inbox := []).subscriptions;
    }
    if DispatchFaults(ws, m) {
      var w :| w in ws && w.Matches(m.remote);
      var i :| 0 <= i < |ws| && ws[i] == w;
      assert vs[i] in vs;
    }
    if DispatchFaults(vs, m) {
      var w :| w in vs && w.Matches(m.remote);
      var i :| 0 <= i < |vs| && vs[i] == w;
      assert ws[i] in ws;
    }
  }

  /**
   The drains that leave the memory of the source as written: of an inbox with a second entry, which is shifted
   beyond the inbox record, or of a message that would be sent with no lifetime.
   */
  predicate DrainFaults(s: Server, i: nat)
    requires i < |s.workers|
  {
    var q := s.workers[i].inbox;
    |q| > 1 || (|q| == 1 && q[0].message.Some? && DispatchFaults(s.workers, q[0].message.value))
  }

  /** process_once from worker i on drains nothing of the kind, or is read as documented. */
  predicate OnceRuns(s: Server, i: nat, turns: seq<Turn>, reading: Reading)
    requires i <= |s.workers|
    decreases |s.workers| - i
  {
    reading == Documented || i == |s.workers| ||
    var t := TurnAt(turns, i);
    var a := Arrive(s, t.arrivals);
    var d := Drain(a, i, t.refused);
    !DrainFaults(a, i) && (d.stop || OnceRuns(d.server, i + 1, turns, reading))
  }

  predicate FirstRuns(s: Server, i: nat, turns: seq<Turn>, reading: Reading)
    requires i <= |s.workers|
    decreases |s.workers| - i
  {
    reading == Documented || i == |s.workers| ||
    var a := Arrive(s, TurnAt(turns, i).arrivals);
    if a.workers[i].inbox != [] then !DrainFaults(a, i) else FirstRuns(a, i + 1, turns, reading)
  }

  predicate AllRuns(s: Server, passes: seq<seq<Turn>>, reading: Reading)
    decreases |passes|, Backlog(s.workers)
  {
    reading == Documented ||
    var turns := if passes == [] then [] else passes[0];
    var o := Once(s, turns);
    OnceRuns(s, 0, turns, reading) &&
    (o.error != SUCCESS || o.requests == 0 ||
     (OnceBacklogQuiet(s); AllRuns(o.server, if passes == [] then [] else passes[1..], reading)))
  }

  function Backlog(ws: seq<Worker>): (n: nat) {
    if ws == [] then 0 else |ws[0].inbox| + Backlog(ws[1..])
  }

  lemma {:induction false} BacklogUpdate(ws: seq<Worker>, i: nat, w: Worker)
    requires i < |ws|
    ensures Backlog(ws[i := w]) == Backlog(ws) - |ws[i].inbox| + |w.inbox|
  {
    if i > 0 {
      assert ws[i := w][1..] == ws[1..][i - 1 := w];
      BacklogUpdate(ws[1..], i - 1, w);
    } else {
      assert ws[0 := w][1..] == ws[1..];
    }
  }

  lemma DrainBacklog(s: Server, i: nat, refused: Refusals)
    requires i < |s.workers|
    ensures var n := if s.workers[i].inbox == [] then 0 else 1;
            Backlog(Drain(s, i, refused).server.workers) == Backlog(s.workers) - n && Drain(s, i, refused).requests <= n
    ensures !Drain(s, i, refused).stop ==>
              Backlog(Drain(s, i, refused).server.workers) + Drain(s, i, refused).requests == Backlog(s.workers)
  {
    if s.workers[i].inbox != [] {
      BacklogUpdate(s.workers, i, s.workers[i].(inbox := s.workers[i].inbox[1..]));
    }
  }

  /** Without arrivals a successful pass removes exactly the requests it reports. */
  lemma {:induction false} OnceBacklog(s: Server, i: nat, turns: seq<Turn>)
    requires i <= |s.workers| && forall t :: t in turns ==> t.arrivals == []
    ensures Backlog(OnceFrom(s, i, turns).server.workers) + OnceFrom(s, i, turns).requests <= Backlog(s.workers)
    ensures !OnceFrom(s, i, turns).stop ==>
              Backlog(OnceFrom(s, i, turns).server.workers) + OnceFrom(s, i, turns).requests == Backlog(s.workers)
    decreases |s.workers| - i
  {
    if i < |s.workers| {
      var t := TurnAt(turns, i);
      DrainBacklog(s, i, t.refused);
      var d := Drain(s, i, t.refused);
      if !d.stop {
        OnceBacklog(d.server, i + 1, turns);
      }
    }
  }

  /**
   octopipes_server_process_all: pass after pass until one reports no request. passes is the environment of
   the first passes; afterwards nothing arrives and nobody refuses.
   */
  function All(s: Server, passes: seq<seq<Turn>>): (r: Report)
    decreases |passes|, Backlog(s.workers)
  {
    var turns := if passes == [] then [] else passes[0];
    var o := Once(s, turns);
    if o.error != SUCCESS then o.(requests := 0)
    else if o.requests == 0 then o
    else
      OnceBacklogQuiet(s);
      var r := All(o.server, if passes == [] then [] else passes[1..]);
      r.(requests := o.requests + r.requests)
  }

  lemma OnceBacklogQuiet(s: Server)
    ensures Backlog(Once(s, []).server.workers) + Once(s, []).requests <= Backlog(s.workers)
  {
    OnceBacklog(s, 0, []);
  }
}
