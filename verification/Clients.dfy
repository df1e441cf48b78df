/** The client of src/client.c: what it sends, how it takes an assignment, and the states it goes through. */
module Clients {
  import opened Bytes
  import opened Types
  import opened Frame
  import opened FrameLaws
  import opened Cap
  import opened Serializer

  const DEFAULT_TTL: byte := 60

  datatype ClientState = INIT | SUBSCRIBED | RUNNING | UNSUBSCRIBED | STOPPED

  // ----- What a client sends -----

  /** The origin field: its size is cast to one byte. */
  function OriginField(id: Name): (origin: Name)
    ensures |id| <= 255 ==> origin == id
  {
    id[..Low8(|id|)]
  }

  function SubscribeMessage(id: Name, groups: seq<Name>): (m: Message) {
    Message(VERSION_1, OriginField(id), [], DEFAULT_TTL, 0, 0, Subscription(groups))
  }

  function UnsubscribeMessage(id: Name): (m: Message) {
    Message(VERSION_1, OriginField(id), [], DEFAULT_TTL, 0, 0, UNSUBSCRIPTION_PAYLOAD)
  }

  /**
   The message of octopipes_send_ex. As written, the terminator meant for the remote is stored in the origin, at
   the remote's length: inside the origin it cuts the name, past its own terminator it leaves the allocation.
   */
  function SendMessage(id: Name, remote: Name, data: Data, ttl: byte, options: byte, reading: Reading)
    : (m: Option<Message>)
    ensures reading == Documented ==> m.Some?
  {
    var origin, n := OriginField(id), Low8(|remote|);
    var to: Data := remote[..n];
    if reading == Documented || n == |origin| then
      Some(Message(VERSION_1, origin, to, ttl, options, 0, data))
    else if n < |origin| then Some(Message(VERSION_1, origin[n := 0], to, ttl, options, 0, data))
    else None
  }

  /** Whatever happens to the origin, the payload and the rest of the message are those of the caller. */
  lemma SentFields(id: Name, remote: Name, data: Data, ttl: byte, options: byte, reading: Reading)
    ensures var m := SendMessage(id, remote, data, ttl, options, reading);
            m.Some? ==>
              && m.value.data == data && m.value.ttl == ttl && m.value.options == options && m.value.version == 1
              && (|remote| <= 255 ==> m.value.remote == remote)
              && (|id| <= 255 ==> |m.value.origin| == |id|)
              && (|id| <= 255 && reading == Documented ==> m.value.origin == id)
  {
  }

  /** The sent message is the documented one iff the two names have sizes of the same low byte. */
  lemma OriginIntactIff(id: Name, remote: Name, data: Data, ttl: byte, options: byte)
    ensures SendMessage(id, remote, data, ttl, options, AsWritten)
            == SendMessage(id, remote, data, ttl, options, Documented)
            <==> Low8(|remote|) == Low8(|id|)
    ensures SendMessage(id, remote, data, ttl, options, AsWritten).None? <==> Low8(|remote|) > Low8(|id|)
  {
    var origin, n := OriginField(id), Low8(|remote|);
    if n < |origin| {
      assert origin[n] in origin;
      assert origin[n := 0][n] == 0;
    }
  }

  /** Otherwise, whoever answers the origin answers a name as short as the remote's. */
  lemma TruncatedOriginName(id: Name, remote: Name, data: Data, ttl: byte, options: byte)
    requires |remote| < |id| <= 255
    ensures var m := SendMessage(id, remote, data, ttl, options, AsWritten);
            m.Some? && CStr(m.value.origin) == id[..|remote|]
  {
    var o := id[..][|remote| := 0];
    CStrCut(o, |remote|);
    assert o[..|remote|] == id[..|remote|];
  }

  lemma {:induction false} CStrCut(s: Data, n: nat)
    requires n < |s| && s[n] == 0 && 0 !in s[..n]
    ensures CStr(s) == s[..n]
  {
    if n > 0 {
      assert s[0] in s[..n];
      assert s[1..][..n - 1] == s[..n][1..];
      CStrCut(s[1..], n - 1);
    }
  }

  /** The answer to a message that asks for an acknowledgement; it never asks for one itself. */
  function AckMessage(id: Name, m: Message): (ack: Message)
    requires m.origin != []
    ensures !ack.RequiresAck() && ack.data == []
    ensures |m.origin| <= 255 ==> ack.remote == CStr(m.origin)
  {
    SendMessage(id, CStr(m.origin), [], 255, ACK, Documented).value
  }

  /** An acknowledgement is marked as one, in either reading, and says who acknowledges. */
  lemma AckFields(id: Name, m: Message)
    requires m.origin != []
    ensures var ack := AckMessage(id, m);
            && ack.options == 2 && ack.ttl == 255 && ack.version == 1 && ack.data == []
            && (|id| <= 255 ==> ack.origin == id)
    ensures AckAsWritten(id, m).Some? ==>
              var ack := AckAsWritten(id, m).value;
              && ack.options == 2 && ack.ttl == 255 && ack.version == 1 && ack.data == []
              && (|m.origin| <= 255 ==> ack.remote == CStr(m.origin))
  {
    hide CStr;
    CStrShort(m.origin);
  }

  lemma CStrShort(s: Data)
    ensures |CStr(s)| <= |s|
  {
  }

  /** The acknowledgement with the terminator of its remote stored as written; None past the end of the origin. */
  function AckAsWritten(id: Name, m: Message): (ack: Option<Message>) {
    SendMessage(id, CStr(m.origin), [], 255, ACK, AsWritten)
  }

  /** Acknowledging works as documented iff the two names have sizes of the same low byte. */
  lemma AckIntactIff(id: Name, m: Message)
    requires m.origin != []
    ensures AckAsWritten(id, m) == Some(AckMessage(id, m)) <==> Low8(|CStr(m.origin)|) == Low8(|id|)
    ensures AckAsWritten(id, m).None? <==> Low8(|CStr(m.origin)|) > Low8(|id|)
  {
    OriginIntactIff(id, CStr(m.origin), [], 255, ACK);
  }

  // ----- Taking an assignment -----

  /** A client with the pipe paths it may use, if any: (tx, rx). */
  datatype ClientView = ClientView(id: Name, state: ClientState, pipes: Option<(Data, Data)>)

  datatype Exchange = Exchanged(client: ClientView, rc: Result<()>, assignment: Option<byte>) | Overrun

  /** The part of octopipes_subscribe after the request was sent. */
  function TakeReply(c: ClientView, reply: Result<Data>, reading: Reading): (r: Exchange) {
    match reply
    case Err(e) => Exchanged(c, Err(e), None)
    case Ok(b) =>
      match Decode(b, reading)
      case Overread => Overrun
      case Rejected(e) => Exchanged(c, Err(e), None)
      case Decoded(m) =>
        if m.remote == [] || CStr(m.remote) != c.id || KindOf(m.data) != Assign then Exchanged(c, Err(BAD_PACKET), None)
        else TakeAssignment(c, m.data)
  }

  /**
   A client that had pipes has freed them by now; a parse error after the error code leaves freed paths too. Any
   assignment that parses makes the client subscribed, even one that carries an error.
   */
  function TakeAssignment(c: ClientView, payload: Data): (r: Exchange) {
    var had := c.state == SUBSCRIBED || c.state == RUNNING;
    match ParseAssignment(payload)
    case Err(e) =>
      var kept := if had || |payload| >= 4 then None else c.pipes;
      Exchanged(c.(pipes := kept), Err(e), if |payload| >= 4 then Some(payload[1]) else None)
    case Ok(a) =>
      var kept := if a.pipes.Some? then a.pipes else if had then None else c.pipes;
      Exchanged(c.(state := SUBSCRIBED, pipes := kept), Ok(()), Some(a.error))
  }

  /**
   A reply that is addressed to another client, or that is no assignment, is refused and changes nothing; so is one
   that cannot be read or decoded.
   */
  lemma ForeignReplyRefused(c: ClientView, m: Message, reading: Reading)
    requires m.version == VERSION_1 && m.Sized()
    requires m.remote == [] || CStr(m.remote) != c.id || m.data == [] || m.data[0] != 0xFF
    ensures TakeReply(c, Ok(Encoded(m)), reading) == Exchanged(c, Err(BAD_PACKET), None)
  {
    hide Decode, Encoded, CStr;
    DecodeInvertsEncode(m, [], reading);
    assert Encoded(m) + [] == Encoded(m);
  }

  lemma FailedReplyKept(c: ClientView, reply: Result<Data>, e: Error, reading: Reading)
    requires reply == Err(e) || (reply.Ok? && Decode(reply.value, reading) == Rejected(e))
    ensures TakeReply(c, reply, reading) == Exchanged(c, Err(e), None)
  {
  }

  /** An assignment that does not parse leaves the client in its state, and takes its pipes unless it has left them. */
  lemma FailedAssignment(c: ClientView, payload: Data)
    requires ParseAssignment(payload).Err?
    ensures var r := TakeAssignment(c, payload);
            && r.Exchanged? && r.rc == Err(BAD_PACKET) && r.client.id == c.id && r.client.state == c.state
            && r.client.pipes == (if HoldsOldPipes(c) && |payload| < 4 then c.pipes else None)
            && (if |payload| < 4 then r.assignment == None else r.assignment == Some(payload[1]))
  {
  }

  /** The client holds pipe paths from an earlier subscription, and has left it since. */
  predicate HoldsOldPipes(c: ClientView) {
    c.pipes.Some? && c.state != SUBSCRIBED && c.state != RUNNING
  }

  /**
   After an assignment that parses the client counts as subscribed. It was given pipes iff the error is success;
   otherwise it still has pipes iff it holds those of an earlier subscription.
   */
  lemma SubscribedWithPipesIff(c: ClientView, payload: Data)
    requires ParseAssignment(payload).Ok?
    ensures var r := TakeAssignment(c, payload).client;
            && r.state == SUBSCRIBED
            && (r.pipes.Some? <==> payload[1] == CAP_SUCCESS || HoldsOldPipes(c))
            && (payload[1] != CAP_SUCCESS && HoldsOldPipes(c) ==> r.pipes == c.pipes)
  {
  }

  /** Such a client: it unsubscribes, its name is taken meanwhile, and its next subscription gives it the old pipes. */
  lemma OldPipesReturn(id: Name, pipes: (Data, Data))
    ensures var c := ClientView(id, UNSUBSCRIBED, Some(pipes));
            TakeAssignment(c, Assignment(NAME_ALREADY_TAKEN, [], []))
            == Exchanged(ClientView(id, SUBSCRIBED, Some(pipes)), Ok(()), Some(NAME_ALREADY_TAKEN))
  {
    AssignmentRoundTrip(NAME_ALREADY_TAKEN, [], []);
  }

  // ----- The client object -----

  /** What the receive loop does with one read: callbacks are reports. */
  datatype LoopTurn = NoData | ReportError(error: Error) | Received(message: Message, ack: Option<Message>) | LoopFault

  /**
   What a call of octopipes_send_ex does. SendFault: it writes past the end of the origin, or has pipe_send poll a
   descriptor that it had no time to open.
   */
  datatype SendTurn = NotSent(error: Error) | Written(frame: Data, rc: Result<()>) | SendFault

  class OctopipesClient {
    const id: Name
    var state: ClientState
    var pipes: Option<(Data, Data)>

    function View(): (v: ClientView)
      reads this
    {
      ClientView(id, state, pipes)
    }

    constructor (clientId: Name)
      ensures View() == ClientView(clientId, INIT, None)
    {
      id, state, pipes := clientId, INIT, None;
    }

    /** octopipes_subscribe; sentRc is the result of writing the request, reply that of reading the CAP. */
    method Subscribe(groups: seq<Name>, sentRc: Result<()>, reply: Result<array<byte>>)
      returns (request: array<byte>, r: Exchange)
      requires SubscribeMessage(id, groups).Sized()
      modifies this
      ensures fresh(request) && request[..] == Encoded(SubscribeMessage(id, groups))
      ensures sentRc.Err? ==> r == Exchanged(old(View()), sentRc, None) && View() == old(View())
      ensures sentRc.Ok? ==>
                r == TakeReply(old(View()), if reply.Ok? then Ok(old(reply.value[..])) else Err(reply.error), AsWritten)
      ensures View() == if r.Exchanged? then r.client else old(View())
    {
      var payload := PrepareSubscription(groups);
      var m := Message(VERSION_1, OriginField(id), [], DEFAULT_TTL, 0, 0, payload[..]);
      var frame, sealed := Encode(m);
      request := frame.value;
      if sentRc.Err? {
        return request, Exchanged(View(), sentRc, None);
      }
      if reply.Err? {
        return request, Exchanged(View(), Err(reply.error), None);
      }
      var decoded := DecodeFrame(reply.value);
      match decoded {
        case Overread => r := Overrun;
        case Rejected(e) => r := Exchanged(View(), Err(e), None);
        case Decoded(answer) =>
          if answer.remote == [] || CStr(answer.remote) != id || KindOf(answer.data) != Assign {
            return request, Exchanged(View(), Err(BAD_PACKET), None);
          }
          r := AcceptAssignment(answer.data);
      }
    }

    method AcceptAssignment(payload: Data) returns (r: Exchange)
      modifies this
      ensures r == TakeAssignment(old(View()), payload) && View() == r.client
    {
      if state == SUBSCRIBED || state == RUNNING {
        pipes := None;
      }
      var parsed := ParseAssign(payload);
      var error := if |payload| >= 4 then Some(payload[1]) else None;
      if parsed.Err? {
        if |payload| >= 4 {
          pipes := None;
        }
        return Exchanged(View(), Err(parsed.error), error);
      }
      if parsed.value.pipes.Some? {
        pipes := parsed.value.pipes;
      }
      state := SUBSCRIBED;
      r := Exchanged(View(), Ok(()), error);
    }

    /** octopipes_loop_stop; joinOk says whether the thread can be joined. */
    method LoopStop(joinOk: bool) returns (rc: Result<()>)
      modifies this`state
      ensures state == if old(state) == UNSUBSCRIBED && joinOk then STOPPED else old(state)
      ensures rc == if old(state) != UNSUBSCRIBED then Err(NOT_UNSUBSCRIBED) else if joinOk then Ok(()) else Err(THREAD)
    {
      if state != UNSUBSCRIBED {
        return Err(NOT_UNSUBSCRIBED);
      }
      state := STOPPED;
      if !joinOk {
        state := UNSUBSCRIBED;
        return Err(THREAD);
      }
      rc := Ok(());
    }

    /** octopipes_loop_start: the thread, if it can be created, sets the state to running. */
    method LoopStart(createOk: bool) returns (rc: Result<()>)
      modifies this`state
      ensures state == if old(state) == SUBSCRIBED && createOk then RUNNING else old(state)
      ensures rc == if old(state) != SUBSCRIBED then Err(NOT_SUBSCRIBED) else if createOk then Ok(()) else Err(THREAD)
    {
      if state != SUBSCRIBED {
        return Err(NOT_SUBSCRIBED);
      }
      if !createOk {
        return Err(THREAD);
      }
      state := RUNNING;
      rc := Ok(());
    }

    /**
     octopipes_unsubscribe. It asks for the loop to be stopped before it leaves the subscribed states, so the
     request is always refused: the client ends up unsubscribed, never stopped.
     */
    method Unsubscribe(sentRc: Result<()>, joinOk: bool) returns (request: Option<array<byte>>, rc: Result<()>)
      requires UnsubscribeMessage(id).Sized()
      modifies this`state
      ensures old(state) != SUBSCRIBED && old(state) != RUNNING ==>
                request == None && rc == Err(NOT_SUBSCRIBED) && state == old(state)
      ensures old(state) == SUBSCRIBED || old(state) == RUNNING ==>
                && request.Some? && request.value[..] == Encoded(UnsubscribeMessage(id)) && rc == sentRc
                && state == if sentRc.Ok? then UNSUBSCRIBED else old(state)
    {
      if state != SUBSCRIBED && state != RUNNING {
        return None, Err(NOT_SUBSCRIBED);
      }
      var frame, sealed := Encode(UnsubscribeMessage(id));
      request := Some(frame.value);
      rc := sentRc;
      if rc.Err? {
        return;
      }
      var stopped := LoopStop(joinOk);
      assert stopped == Err(NOT_UNSUBSCRIBED);
      state := UNSUBSCRIBED;
    }

    /** octopipes_send_ex, with its terminator stored as written; sentRc is the result of writing the frame. */
    method Send(remote: Name, data: Data, ttl: byte, options: byte, sentRc: Result<()>) returns (r: SendTurn)
      requires SendMessage(id, remote, data, ttl, options, Documented).value.Sized()
      ensures state != SUBSCRIBED && state != RUNNING ==> r == NotSent(NOT_SUBSCRIBED)
      ensures state == SUBSCRIBED || state == RUNNING ==>
                match SendMessage(id, remote, data, ttl, options, AsWritten)
                case None => r == SendFault
                case Some(m) => r == if ttl == 0 then SendFault else Written(Encoded(m), sentRc)
    {
      if state != RUNNING && state != SUBSCRIBED {
        return NotSent(NOT_SUBSCRIBED);
      }
      var origin: Data := OriginField(id) + [0];
      var n := Low8(|remote|);
      if n >= |origin| {
        return SendFault;
      }
      origin := origin[n := 0];
      var m := Message(VERSION_1, origin[..|origin| - 1], remote[..n], ttl, options, 0, data);
      Terminated(OriginField(id), n);
      var out, sealed := Encode(m);
      if ttl as nat * 1000 == 0 {
        return SendFault;
      }
      return Written(out.value[..], sentRc);
    }

    /** One turn of octopipes_loop after pipe_receive returned; read is a buffer or its error. */
    method Turn(read: Result<array<byte>>) returns (t: LoopTurn)
      ensures read.Err? ==> t == if read.error == NO_DATA_AVAILABLE then NoData else ReportError(read.error)
      ensures read.Ok? ==>
                match Decode(read.value[..], AsWritten)
                case Overread => t == LoopFault
                case Rejected(e) => t == ReportError(e)
                case Decoded(m) =>
                  if !m.RequiresAck() || (state != SUBSCRIBED && state != RUNNING) then t == Received(m, None)
                  else if m.origin == [] || AckAsWritten(id, m).None? then t == LoopFault
                  else t == Received(m, AckAsWritten(id, m))
    {
      if read.Err? {
        return if read.error == NO_DATA_AVAILABLE then NoData else ReportError(read.error);
      }
      var decoded := DecodeFrame(read.value);
      match decoded {
        case Overread => t := LoopFault;
        case Rejected(e) => t := ReportError(e);
        case Decoded(m) =>
          if !m.RequiresAck() || (state != RUNNING && state != SUBSCRIBED) {
            t := Received(m, None);
          } else if m.origin == [] {
            t := LoopFault;
          } else {
            var ack := AckAsWritten(id, m);
            t := if ack.None? then LoopFault else Received(m, ack);
          }
      }
    }
  }

  /** Overwriting the terminator of a C string changes nothing of it; elsewhere it puts a NUL into it. */
  lemma Terminated(origin: Name, n: nat)
    requires n <= |origin|
    ensures var o: Data := (origin + [0])[n := 0];
            o[..|origin|] == if n == |origin| then origin else origin[n := 0]
  {
  }
}
