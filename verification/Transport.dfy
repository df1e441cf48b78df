/** The accumulation loops of src/pipes_unix.c over an oracle of poll, read and write results. */
module Transport {
  import opened Bytes
  import opened Types
  import opened Frame
  import opened FrameLaws

  const POLL_TIME: nat := 50

  // ----- pipe_send -----

  /** One turn of the writing loop. Accepted(n): the FIFO takes n bytes, or all that remain if fewer. */
  datatype WriteEvent = NotReady | NotWritable | Accepted(n: nat) | WriteError

  /** total is the size_t counter of the source, which also absorbs the -1 of a failed write. */
  datatype Sending = Sending(wire: Data, total: nat, errors: nat, refused: bool)

  const NOTHING_SENT: Sending := Sending([], 0, 0, false)

  function WriteStep(data: Data, s: Sending, e: WriteEvent): Sending
    requires s.total < |data|
  {
    match e
    case NotReady => s.(refused := true)
    case NotWritable => s
    case Accepted(n) =>
      var k := if n < |data| - s.total then n else |data| - s.total;
      s.(wire := s.wire + data[s.total..s.total + k], total := s.total + k)
    case WriteError => s.(total := (s.total + SIZE_LIMIT - 1) % SIZE_LIMIT, errors := s.errors + 1)
  }

  /** The loop leaves the remaining events alone once the counter reaches the size of the data. */
  function Write(data: Data, s: Sending, events: seq<WriteEvent>): (r: Sending)
    decreases |events|
  {
    if s.total >= |data| || events == [] then s else Write(data, WriteStep(data, s, events[0]), events[1..])
  }

  /** Waiting: the events have not let pipe_send leave its loop. UnsetDescriptor: it polls what it never opened. */
  datatype SendOutcome = Waiting | Returned(rc: Result<()>) | UnsetDescriptor

  function SendStatus(data: Data, s: Sending): (r: SendOutcome) {
    if s.total < |data| then Waiting
    else if s.total == |data| then Returned(Ok(()))
    else Returned(Err(if s.refused then WRITE_FAILED else NO_DATA_AVAILABLE))
  }

  /** One of the attempts made before the timeout, POLL_TIME apart, opens the FIFO. */
  predicate Opens(timeout: nat, attempts: seq<bool>) {
    exists k :: 0 <= k < |attempts| && POLL_TIME * k < timeout && attempts[k]
  }

  /** attempts says which attempts at opening succeed, and none does after them. */
  method PipeSend(data: Data, timeout: nat, attempts: seq<bool>, events: seq<WriteEvent>)
    returns (status: SendOutcome, wire: Data)
    requires |data| < SIZE_LIMIT - 1
    ensures status == if timeout == 0 then UnsetDescriptor
                      else if !Opens(timeout, attempts) then Returned(Err(OPEN_FAILED))
                      else SendStatus(data, Write(data, NOTHING_SENT, events))
    ensures wire == if Opens(timeout, attempts) then Write(data, NOTHING_SENT, events).wire else []
    ensures status.Returned? ==> SendResult(status.rc)
  {
    var descriptor: Option<bool>, elapsed, attempt := None, 0, 0;
    while elapsed < timeout
      invariant elapsed == POLL_TIME * attempt && (attempt > 0 ==> timeout > 0)
      invariant descriptor == if attempt == 0 then None else Some(false)
      invariant forall k :: 0 <= k < |attempts| && k < attempt ==> !attempts[k]
    {
      descriptor := Some(attempt < |attempts| && attempts[attempt]);
      if descriptor == Some(true) {
        break;
      }
      elapsed := elapsed + POLL_TIME;
      attempt := attempt + 1;
    }
    if descriptor.None? {
      return UnsetDescriptor, [];
    }
    if !descriptor.value {
      assert !Opens(timeout, attempts);
      return Returned(Err(OPEN_FAILED)), [];
    }
    status, wire := WriteAll(data, events);
  }

  /** The writing loop. */
  method WriteAll(data: Data, events: seq<WriteEvent>) returns (status: SendOutcome, wire: Data)
    requires |data| < SIZE_LIMIT - 1
    ensures status == SendStatus(data, Write(data, NOTHING_SENT, events))
    ensures wire == Write(data, NOTHING_SENT, events).wire
  {
    var rc := NO_DATA_AVAILABLE;
    var total, turn := 0, 0;
    ghost var errors := 0;
    wire := [];
    assert events[0..] == events;
    while total < |data| && turn < |events|
      invariant turn <= |events| && 0 <= total
      invariant rc == NO_DATA_AVAILABLE || rc == WRITE_FAILED
      invariant Write(data, NOTHING_SENT, events)
             == Write(data, Sending(wire, total, errors, rc == WRITE_FAILED), events[turn..])
      decreases |events| - turn
    {
      assert events[turn..][0] == events[turn] && events[turn..][1..] == events[turn + 1..];
      match events[turn] {
        case NotReady => rc := WRITE_FAILED;
        case NotWritable =>
        case Accepted(n) =>
          var remaining := |data| - total;
          var written := if n < remaining then n else remaining;
          wire := wire + data[total..total + written];
          total := total + written;
        case WriteError =>
          total := (total + SIZE_LIMIT - 1) % SIZE_LIMIT;
          errors := errors + 1;
      }
      turn := turn + 1;
    }
    status := if total < |data| then Waiting else if total == |data| then Returned(Ok(())) else Returned(Err(rc));
  }

  /** A reported success wrote the data exactly iff no write failed; each failure duplicates one byte. */
  lemma SentExactlyIff(data: Data, events: seq<WriteEvent>)
    requires |data| < SIZE_LIMIT - 1
    requires SendStatus(data, Write(data, NOTHING_SENT, events)) == Returned(Ok(()))
    ensures var s := Write(data, NOTHING_SENT, events);
            |s.wire| == |data| + s.errors && (s.wire == data <==> s.errors == 0)
  {
    WriteKeeps(data, NOTHING_SENT, events);
  }

  ghost predicate SendInvariant(data: Data, s: Sending) {
    if s.total > |data| then true
    else |s.wire| == s.total + s.errors && (s.errors == 0 ==> s.wire == data[..s.total])
  }

  lemma {:induction false} WriteKeeps(data: Data, s: Sending, events: seq<WriteEvent>)
    requires |data| < SIZE_LIMIT - 1 && SendInvariant(data, s)
    ensures SendInvariant(data, Write(data, s, events))
    decreases |events|
  {
    if s.total < |data| && events != [] {
      WriteKeeps(data, WriteStep(data, s, events[0]), events[1..]);
    }
  }

  /** Unless a write failed, success is reported iff the data is on the wire, however often the pipe was not ready. */
  lemma SuccessIff(data: Data, events: seq<WriteEvent>)
    requires |data| < SIZE_LIMIT - 1 && Write(data, NOTHING_SENT, events).errors == 0
    ensures var s := Write(data, NOTHING_SENT, events);
            && (SendStatus(data, s) == Returned(Ok(())) <==> s.wire == data)
            && (SendStatus(data, s) == Waiting <==> s.wire != data)
  {
    WriteKeeps(data, NOTHING_SENT, events);
    WriteBounded(data, NOTHING_SENT, events);
  }

  /** The counter passes the size of the data only by a failed write. */
  lemma {:induction false} WriteBounded(data: Data, s: Sending, events: seq<WriteEvent>)
    requires s.total <= |data|
    ensures Write(data, s, events).errors >= s.errors
    ensures Write(data, s, events).errors == s.errors ==> Write(data, s, events).total <= |data|
    decreases |events|
  {
    if s.total < |data| && events != [] {
      var t := WriteStep(data, s, events[0]);
      if t.total <= |data| {
        WriteBounded(data, t, events[1..]);
      } else {
        assert Write(data, t, events[1..]) == t;
      }
    }
  }

  /** A write that fails before anything was written ends the loop, with WRITE_FAILED iff an earlier poll failed. */
  lemma FirstWriteFails(data: Data, polls: seq<WriteEvent>, late: seq<WriteEvent>)
    requires 0 < |data| < SIZE_LIMIT - 1 && forall e :: e in polls ==> e == NotReady || e == NotWritable
    ensures SendStatus(data, Write(data, NOTHING_SENT, polls + ([WriteError] + late)))
         == Returned(Err(if NotReady in polls then WRITE_FAILED else NO_DATA_AVAILABLE))
  {
    FirstWriteFrom(data, NOTHING_SENT, polls, late);
  }

  lemma {:induction false} FirstWriteFrom(data: Data, s: Sending, polls: seq<WriteEvent>, late: seq<WriteEvent>)
    requires 0 < |data| < SIZE_LIMIT - 1 && forall e :: e in polls ==> e == NotReady || e == NotWritable
    requires s.total == 0
    ensures SendStatus(data, Write(data, s, polls + ([WriteError] + late)))
         == Returned(Err(if s.refused || NotReady in polls then WRITE_FAILED else NO_DATA_AVAILABLE))
    decreases |polls|
  {
    var last := [WriteError] + late;
    if polls == [] {
      assert polls + last == last && last[1..] == late;
      assert Write(data, WriteStep(data, s, WriteError), late) == WriteStep(data, s, WriteError);
    } else {
      assert polls[0] in polls && (polls + last)[1..] == polls[1..] + last;
      assert forall e :: e in polls <==> e == polls[0] || e in polls[1..];
      FirstWriteFrom(data, WriteStep(data, s, polls[0]), polls[1..], late);
    }
  }

  /** Such a schedule: one byte, a failed write, then the rest; the first byte goes out twice. */
  lemma FailedWriteDuplicates()
    ensures var s := Write([1, 2], NOTHING_SENT, [Accepted(1), WriteError, Accepted(2)]);
            SendStatus([1, 2], s) == Returned(Ok(())) && s.wire == [1, 1, 2]
  {
    var d: Data, e := [1, 2], [Accepted(1), WriteError, Accepted(2)];
    assert Write(d, NOTHING_SENT, e) == Write(d, Sending([1], 1, 0, false), e[1..]);
    assert Write(d, Sending([1], 1, 0, false), e[1..]) == Write(d, Sending([1], 0, 1, false), e[1..][1..]);
    assert e[1..][1..][0] == Accepted(2);
    assert [1] + d[0..2] == [1, 1, 2];
  }

  // ----- pipe_receive -----

  type NonEmpty = b: Data | b != [] witness [0]

  /**
   One turn of the reading loop. Empty: no data yet (poll timed out, EAGAIN, or only POLLHUP). AtEnd: read returned
   0; block says whether realloc to size 0 returns a block. Spurious: poll reported an event the loop does not look
   at. Broken: POLLERR, or poll or read failed.
   */
  datatype ReadEvent = Chunk(bytes: NonEmpty) | AtEnd(block: bool) | Empty | Spurious | Broken

  /** The data pointer: None is NULL, and Some([]) a block of size 0. */
  function Held(data: Option<Data>): Data {
    if data.Some? then data.value else []
  }

  /** The loop's result, or None while the events have not let it end. */
  function Receive(timeout: nat, data: Option<Data>, elapsed: nat, events: seq<ReadEvent>): (r: Option<Result<Data>>)
    decreases |events|
  {
    if elapsed >= timeout then Some(Received(data, NO_DATA_AVAILABLE))
    else if events == [] then None
    else
      match events[0]
      case Chunk(b) => Receive(timeout, Some(Held(data) + b), elapsed, events[1..])
      case AtEnd(block) =>
        if Held(data) != [] then Receive(timeout, data, elapsed, events[1..])
        else if block then Receive(timeout, Some([]), elapsed, events[1..])
        else Some(Err(BAD_ALLOC))
      case Empty => if data == None then Receive(timeout, data, elapsed + POLL_TIME, events[1..])
                    else Some(Received(data, NO_DATA_AVAILABLE))
      case Spurious => Receive(timeout, data, elapsed, events[1..])
      case Broken => Some(Received(data, READ_FAILED))
  }

  /** Bytes that were read win over an error that ended the loop. */
  function Received(data: Option<Data>, error: Error): Result<Data> {
    if Held(data) != [] then Ok(Held(data)) else Err(error)
  }

  method PipeReceive(isOpen: bool, timeout: nat, events: seq<ReadEvent>) returns (r: Option<Result<Data>>)
    ensures !isOpen ==> r == Some(Err(OPEN_FAILED))
    ensures isOpen ==> r == Receive(timeout, None, 0, events)
  {
    if !isOpen {
      return Some(Err(OPEN_FAILED));
    }
    var rc := NO_DATA_AVAILABLE;
    var data: Option<Data>, size, elapsed, turn := None, 0, 0, 0;
    assert events[0..] == events;
    while elapsed < timeout
      invariant turn <= |events| && elapsed >= 0 && size == |Held(data)|
      invariant Receive(timeout, None, 0, events) == Receive(timeout, data, elapsed, events[turn..])
      decreases |events| - turn
    {
      if turn == |events| {
        return None;
      }
      var event := events[turn];
      assert events[turn..][0] == event && events[turn..][1..] == events[turn + 1..];
      turn := turn + 1;
      match event {
        case Chunk(b) => data, size := Some(Held(data) + b), size + |b|;
        case AtEnd(block) =>
          if size == 0 {
            if !block {
              return Some(Err(BAD_ALLOC));
            }
            data := Some([]);
          }
        case Empty =>
          if data == None {
            elapsed := elapsed + POLL_TIME;
          } else {
            return Some(Received(data, rc));
          }
        case Spurious =>
        case Broken =>
          rc := READ_FAILED;
          return Some(Received(data, rc));
      }
    }
    r := Some(Received(data, rc));
  }

  /** Concatenation of the chunks among the events. */
  function Chunks(events: seq<ReadEvent>): (s: Data) {
    if events == [] then [] else (if events[0].Chunk? then events[0].bytes else []) + Chunks(events[1..])
  }

  function Empties(events: seq<ReadEvent>): (n: nat) {
    if events == [] then 0 else (if events[0].Empty? then 1 else 0) + Empties(events[1..])
  }

  /** Waiting for the first byte: no data, no failure. */
  predicate Idle(events: seq<ReadEvent>) {
    forall i :: 0 <= i < |events| ==> events[i].Empty? || events[i].Spurious?
  }

  /** Bytes arriving without a pause. */
  predicate Flowing(events: seq<ReadEvent>) {
    forall i :: 0 <= i < |events| ==> events[i].Chunk? || events[i].Spurious? || events[i] == AtEnd(true)
  }

  lemma {:induction false} ReceiveIdle(timeout: nat, elapsed: nat, idle: seq<ReadEvent>, rest: seq<ReadEvent>)
    requires Idle(idle) && elapsed + POLL_TIME * Empties(idle) < timeout
    ensures Receive(timeout, None, elapsed, idle + rest)
         == Receive(timeout, None, elapsed + POLL_TIME * Empties(idle), rest)
    decreases |idle|
  {
    if idle == [] {
      assert idle + rest == rest;
    } else {
      assert (idle + rest)[1..] == idle[1..] + rest;
      ReceiveIdle(timeout, elapsed + (if idle[0].Empty? then POLL_TIME else 0), idle[1..], rest);
    }
  }

  /**
   A read that meets a failure before any byte: a broken pipe, or a read of 0 bytes for which no block is allocated;
   after one for which a block is allocated it no longer waits.
   */
  lemma FailedReads(timeout: nat, idle: seq<ReadEvent>, late: seq<ReadEvent>)
    requires Idle(idle) && POLL_TIME * Empties(idle) < timeout
    ensures Receive(timeout, None, 0, idle + ([Broken] + late)) == Some(Err(READ_FAILED))
    ensures Receive(timeout, None, 0, idle + ([AtEnd(false)] + late)) == Some(Err(BAD_ALLOC))
    ensures Receive(timeout, None, 0, idle + ([AtEnd(true), Empty] + late)) == Some(Err(NO_DATA_AVAILABLE))
  {
    ReceiveIdle(timeout, 0, idle, [Broken] + late);
    ReceiveIdle(timeout, 0, idle, [AtEnd(false)] + late);
    var e := [AtEnd(true), Empty] + late;
    ReceiveIdle(timeout, 0, idle, e);
    assert e[1..][0] == Empty;
  }

  /** Without data a read ends, with no result, as soon as its polls have used up its time. */
  lemma {:induction false} IdleReadFrom(timeout: nat, elapsed: nat, idle: seq<ReadEvent>)
    requires Idle(idle)
    ensures Receive(timeout, None, elapsed, idle)
         == if elapsed + POLL_TIME * Empties(idle) < timeout then None else Some(Err(NO_DATA_AVAILABLE))
    decreases |idle|
  {
    if idle != [] && elapsed < timeout {
      IdleReadFrom(timeout, elapsed + (if idle[0].Empty? then POLL_TIME else 0), idle[1..]);
    }
  }

  /** The data pointer after bytes flowed in. */
  function Gather(data: Option<Data>, flow: seq<ReadEvent>): (r: Option<Data>)
    decreases |flow|
  {
    if flow == [] then data
    else if flow[0].Chunk? then Gather(Some(Held(data) + flow[0].bytes), flow[1..])
    else if flow[0].AtEnd? && Held(data) == [] then Gather(Some([]), flow[1..])
    else Gather(data, flow[1..])
  }

  lemma {:induction false} GatherHolds(data: Option<Data>, flow: seq<ReadEvent>)
    ensures Held(Gather(data, flow)) == Held(data) + Chunks(flow)
    decreases |flow|
  {
    if flow == [] {
      assert Held(data) + [] == Held(data);
    } else if flow[0].Chunk? {
      GatherHolds(Some(Held(data) + flow[0].bytes), flow[1..]);
      Assoc(Held(data), flow[0].bytes, Chunks(flow[1..]));
    } else {
      GatherHolds(if flow[0].AtEnd? && Held(data) == [] then Some([]) else data, flow[1..]);
      assert [] + Chunks(flow[1..]) == Chunks(flow[1..]);
    }
  }

  lemma {:induction false} ReceiveFlowing(timeout: nat, elapsed: nat, data: Option<Data>, flow: seq<ReadEvent>,
                                          rest: seq<ReadEvent>)
    requires Flowing(flow) && elapsed < timeout
    ensures Receive(timeout, data, elapsed, flow + rest) == Receive(timeout, Gather(data, flow), elapsed, rest)
    decreases |flow|
  {
    if flow == [] {
      assert flow + rest == rest;
    } else {
      assert (flow + rest)[1..] == flow[1..] + rest;
      var next := if flow[0].Chunk? then Some(Held(data) + flow[0].bytes)
                  else if flow[0].AtEnd? && Held(data) == [] then Some([]) else data;
      ReceiveFlowing(timeout, elapsed, next, flow[1..], rest);
    }
  }

  /**
   A reader that starts within its timeout returns what flows in up to the first pause, however it is cut
   into chunks; so it gets a whole transmission iff nothing of it comes after that pause.
   */
  lemma ReassemblyIff(timeout: nat, idle: seq<ReadEvent>, flow: seq<ReadEvent>, pause: ReadEvent, late: seq<ReadEvent>)
    requires Idle(idle) && POLL_TIME * Empties(idle) < timeout
    requires Flowing(flow) && Chunks(flow) != []
    requires pause.Empty? || pause.Broken?
    ensures Receive(timeout, None, 0, idle + flow + [pause] + late) == Some(Ok(Chunks(flow)))
    ensures Chunks(flow) == Chunks(idle + flow + [pause] + late) <==> Chunks(late) == []
  {
    var tail := [pause] + late;
    assert idle + flow + [pause] + late == idle + (flow + tail);
    ReceiveIdle(timeout, 0, idle, flow + tail);
    ReceiveFlowing(timeout, POLL_TIME * Empties(idle), None, flow, tail);
    GatherHolds(None, flow);
    assert tail[0] == pause && tail[1..] == late;
    ChunksConcat(idle, flow + tail);
    ChunksConcat(flow, tail);
    NoChunksInIdle(idle);
    assert |Chunks(idle + (flow + tail))| == |Chunks(flow)| + |Chunks(late)|;
    assert [] + Chunks(flow) == Chunks(flow);
  }

  lemma {:induction false} ChunksConcat(a: seq<ReadEvent>, b: seq<ReadEvent>)
    ensures Chunks(a + b) == Chunks(a) + Chunks(b)
  {
    if a == [] {
      assert a + b == b;
    } else {
      assert (a + b)[1..] == a[1..] + b;
      ChunksConcat(a[1..], b);
    }
  }

  lemma {:induction false} NoChunksInIdle(idle: seq<ReadEvent>)
    requires Idle(idle)
    ensures Chunks(idle) == []
  {
    if idle != [] {
      NoChunksInIdle(idle[1..]);
    }
  }

  /** Sender to receiver: any schedule of partial writes, any chunking of the reads, the same message. */
  lemma MessageCrossesPipe(m: Message, writes: seq<WriteEvent>, timeout: nat,
                           idle: seq<ReadEvent>, flow: seq<ReadEvent>, pause: ReadEvent, reading: Reading)
    requires m.version == VERSION_1 && m.Sized() && m.FrameSize() < SIZE_LIMIT - 1
    requires var s := Write(Encoded(m), NOTHING_SENT, writes);
             SendStatus(Encoded(m), s).Returned? && s.errors == 0 && Chunks(flow) == s.wire
    requires Idle(idle) && POLL_TIME * Empties(idle) < timeout && Flowing(flow)
    requires pause.Empty? || pause.Broken?
    ensures SendStatus(Encoded(m), Write(Encoded(m), NOTHING_SENT, writes)) == Returned(Ok(()))
    ensures var r := Receive(timeout, None, 0, idle + flow + [pause]);
            r == Some(Ok(Encoded(m))) && Decode(r.value.value, reading) == Decoded(Sealed(m))
  {
    SuccessIff(Encoded(m), writes);
    ReassemblyIff(timeout, idle, flow, pause, []);
    assert idle + flow + [pause] + [] == idle + flow + [pause];
    DecodeInvertsEncode(m, [], reading);
    assert Encoded(m) + [] == Encoded(m);
  }
}
