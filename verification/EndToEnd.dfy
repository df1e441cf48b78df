/** From the frames one client writes to the frames another client reads. */
module EndToEnd {
  import opened Bytes
  import opened Types
  import opened Frame
  import opened FrameLaws
  import opened Broker
  import opened Control
  import opened Routing
  import opened Waiting
  import opened Faithful
  import opened Clients

  lemma SealedTwice(m: Message)
    ensures Sealed(Sealed(m)) == Sealed(m) && Encoded(Sealed(m)) == Encoded(m)
  {
    ChecksumIgnoresField(m, Sealed(m).checksum);
    assert Stem(Sealed(m), Sealed(m).checksum) == Stem(m, Sealed(m).checksum);
  }

  lemma SameSubscribers(ws: seq<Worker>, i: nat, q: seq<Entry>, to: Name, remote: Data)
    requires i < |ws|
    ensures Subscribed(ws[i := ws[i].(inbox := q)], to, remote) <==> Subscribed(ws, to, remote)
  {
    var r := ws[i := ws[i].(inbox := q)];
    if Subscribed(ws, to, remote) {
      var w :| w in ws && w.id == to && w.Matches(remote);
      var j :| 0 <= j < |ws| && ws[j] == w;
      assert r[j] in r && r[j].id == to && r[j].Matches(remote);
    }
    if Subscribed(r, to, remote) {
      var w :| w in r && w.id == to && w.Matches(remote);
      var j :| 0 <= j < |r| && r[j] == w;
      assert ws[j] in ws && ws[j].id == to && ws[j].Matches(remote);
    }
  }

  /**
   One frame by itself, written to an idle inbox and then drained without refusals: it goes byte for byte and exactly
   once to every client subscribed to its remote, and to nobody else.
   */
  lemma BrokerIsTransparent(s: Server, i: nat, m: Message, to: Name, reading: Reading)
    requires RegistryOk(s.folder, s.workers) && i < |s.workers| && s.workers[i].inbox == []
    requires m.version == VERSION_1 && m.Sized() && m.remote != []
    ensures var e := Entry(Some(Sealed(m)), SUCCESS);
            && Listen(Ok(Encoded(m)), reading) == Queued(e)
            && Between(Run(s, [Pushing(s.workers[i].id, e), Draining(i, map[])]).sent, s.workers[i].id, to)
               == Between(s.sent, s.workers[i].id, to) + if Subscribed(s.workers, to, m.remote) then [Sealed(m)] else []
    ensures Encoded(Sealed(m)) == Encoded(m)
  {
    hide Decode, Encoded, Checksum, Between, Reaches, Subscribed;
    var e := Entry(Some(Sealed(m)), SUCCESS);
    var id, n := s.workers[i].id, Sealed(m);
    SealedTwice(m);
    DecodeInvertsEncode(m, [], reading);
    assert Encoded(m) + [] == Encoded(m);
    var t := Push(s, id, e);
    IndexOfUnique(s.workers, i);
    assert [] + [e] == [e];
    assert t.workers == s.workers[i := s.workers[i].(inbox := [e])];
    StepKeepsRegistry(s, Pushing(id, e));
    StepRoutes(t, Draining(i, map[]), id, to);
    ReachesWithoutRefusal(t.workers, to, n);
    SameSubscribers(s.workers, i, [e], to, m.remote);
    RunTwo(s, Pushing(id, e), Draining(i, map[]));
  }

  lemma RunTwo(s: Server, a: Step, b: Step)
    ensures Run(s, [a, b]) == StepTo(StepTo(s, a), b)
  {
    assert [a, b][1..] == [b] && [b][1..] == [];
    assert Run(StepTo(StepTo(s, a), b), []) == StepTo(StepTo(s, a), b);
  }

  // ----- A stream of frames, through any run -----

  /** a can be obtained from b by leaving some elements out. */
  predicate Selection<T(==)>(a: seq<T>, b: seq<T>) {
    a == [] || (b != [] && ((a[0] == b[0] && Selection(a[1..], b[1..])) || Selection(a, b[1..])))
  }

  lemma {:induction false} SelectionConcat<T>(a: seq<T>, p: seq<T>, b: seq<T>, q: seq<T>)
    requires Selection(a, p) && Selection(b, q)
    ensures Selection(a + b, p + q)
    decreases |p|
  {
    if p == [] {
      assert a + b == b && p + q == q;
    } else {
      assert (p + q)[1..] == p[1..] + q;
      if a != [] && a[0] == p[0] && Selection(a[1..], p[1..]) {
        assert (a + b)[1..] == a[1..] + b;
        SelectionConcat(a[1..], p[1..], b, q);
      } else {
        SelectionConcat(a, p[1..], b, q);
      }
    }
  }

  lemma {:induction false} SelectionTrans<T>(a: seq<T>, b: seq<T>, c: seq<T>)
    requires Selection(a, b) && Selection(b, c)
    ensures Selection(a, c)
    decreases |c|
  {
    if a != [] {
      if b[0] == c[0] && Selection(b[1..], c[1..]) {
        SelectionTrans(if a[0] == b[0] && Selection(a[1..], b[1..]) then a[1..] else a, b[1..], c[1..]);
      } else {
        SelectionTrans(a, b, c[1..]);
      }
    }
  }

  function Seal(ms: seq<Message>): (r: seq<Message>) {
    if ms == [] then [] else [Sealed(ms[0])] + Seal(ms[1..])
  }

  function Frames(ms: seq<Message>): (r: seq<Data>) {
    if ms == [] then [] else [Encoded(ms[0])] + Frames(ms[1..])
  }

  /** The bytes that a client puts into its pipe when it writes these messages. */
  function Wire(ms: seq<Message>): (b: Data) {
    if ms == [] then [] else Encoded(ms[0]) + Wire(ms[1..])
  }

  lemma {:induction false} SameFrames(a: seq<Message>, ms: seq<Message>)
    requires Selection(a, Seal(ms))
    ensures Selection(Frames(a), Frames(ms))
    decreases |ms|
  {
    hide Encoded, Sealed;
    if a != [] {
      SealedTwice(ms[0]);
      assert Seal(ms)[1..] == Seal(ms[1..]);
      assert Frames(ms)[1..] == Frames(ms[1..]) && Frames(a)[1..] == Frames(a[1..]);
      SameFrames(if a[0] == Seal(ms)[0] && Selection(a[1..], Seal(ms[1..])) then a[1..] else a, ms[1..]);
    }
  }

  /** What the listener of a client reads, in order. */
  function Reads(events: seq<Event>, id: Name): (buffers: seq<Result<Data>>) {
    if events == [] then []
    else (if events[0].Heard? && events[0].id == id then [events[0].read] else []) + Reads(events[1..], id)
  }

  /**
   The buffers carry the written messages: each read fails, carries nothing that decodes, or starts with the frame of
   the next message that is not lost, whatever follows it. Messages may be lost between reads and after the last one,
   as those are whose frames were cut or came second in a read.
   */
  predicate Carry(buffers: seq<Result<Data>>, written: seq<Message>)
    decreases |buffers|
  {
    buffers == [] ||
    exists k :: 0 <= k <= |written| && Carry(buffers[1..], written[k..])
                && (Blank(buffers[0]) || (k > 0 && Begins(buffers[0], written[k - 1])))
  }

  predicate Blank(read: Result<Data>) {
    read.Err? || !Decode(read.value, Documented).Decoded?
  }

  /** The messages that the protocol can carry. */
  predicate Writable(ms: seq<Message>) {
    forall m :: m in ms ==> m.version == VERSION_1 && m.Sized()
  }

  function Messages(q: seq<Entry>): (ms: seq<Message>) {
    if q == [] then [] else (if q[0].message.Some? then [q[0].message.value] else []) + Messages(q[1..])
  }

  lemma {:induction false} MessagesConcat(p: seq<Entry>, q: seq<Entry>)
    ensures Messages(p + q) == Messages(p) + Messages(q)
  {
    if p == [] {
      assert p + q == q;
    } else {
      assert (p + q)[1..] == p[1..] + q;
      MessagesConcat(p[1..], q);
      Assoc(if p[0].message.Some? then [p[0].message.value] else [], Messages(p[1..]), Messages(q));
    }
  }

  lemma {:induction false} WithinSelects(a: seq<Message>, q: seq<Entry>)
    requires Within(a, q)
    ensures Selection(a, Messages(q))
    decreases |q|
  {
    if a != [] {
      if q[0].message == Some(a[0]) && Within(a[1..], q[1..]) {
        WithinSelects(a[1..], q[1..]);
        assert Messages(q)[1..] == Messages(q[1..]);
      } else {
        WithinSelects(a, q[1..]);
        SelectionConcat([], Messages(q[..1]), a, Messages(q[1..]));
        MessagesConcat(q[..1], q[1..]);
        assert q[..1] + q[1..] == q && [] + a == a;
      }
    }
  }

  lemma {:induction false} WireEnds(ms: seq<Message>)
    ensures Wire(ms) == [] || Wire(ms)[|Wire(ms)| - 1] == ETX
  {
    hide Stem, Sealed;
    if ms != [] {
      WireEnds(ms[1..]);
    }
  }

  /** Whatever number of frames a read returns, the message of the first one is queued. */
  lemma ListenQueuesFirst(ms: seq<Message>, reading: Reading)
    requires ms != [] && Writable(ms)
    ensures Listen(Ok(Wire(ms)), reading) == Queued(Entry(Some(Sealed(ms[0])), SUCCESS))
  {
    hide Encoded, Sealed, Listen;
    WireEnds(ms);
    assert ms[0] in ms;
    ListenQueuesFrame(Ok(Wire(ms)), ms[0], reading);
  }

  /** What one read adds to an inbox, and how much of the written messages it uses up. */
  lemma ReadQueues(read: Result<Data>, later: seq<Result<Data>>, written: seq<Message>) returns (k: nat)
    requires Carry([read] + later, written) && Writable(written)
    ensures k <= |written| && Carry(later, written[k..])
    ensures var a := Listen(read, Documented);
            a.Queued? ==> Selection(Messages([a.entry]), Seal(written[..k]))
  {
    hide Decode, Encoded, Sealed, Seal, Selection, Begins;
    var buffers := [read] + later;
    assert buffers[0] == read && buffers[1..] == later;
    k :| 0 <= k <= |written| && Carry(later, written[k..])
         && (Blank(read) || (k > 0 && Begins(read, written[k - 1])));
    if Blank(read) {
      BlankQueues(read, Seal(written[..k]));
    } else {
      var m := written[k - 1];
      ListenQueuesFrame(read, m, Documented);
      assert written[..k] == written[..k - 1] + [m];
      SealConcat(written[..k - 1], [m]);
      LastSelected(Seal(written[..k - 1]), m);
    }
  }

  lemma LastSelected(before: seq<Message>, m: Message)
    ensures Selection(Messages([Entry(Some(Sealed(m)), SUCCESS)]), before + Seal([m]))
  {
    hide Sealed;
    var e := Entry(Some(Sealed(m)), SUCCESS);
    assert [m][1..] == [] && [e][1..] == [] && Messages([]) == [] && Seal([]) == [];
    assert Seal([m]) == [Sealed(m)] == Messages([Entry(Some(Sealed(m)), SUCCESS)]);
    SelectionSame([Sealed(m)]);
    SelectionConcat([], before, [Sealed(m)], [Sealed(m)]);
    assert [] + [Sealed(m)] == [Sealed(m)];
  }

  lemma BlankQueues(read: Result<Data>, ms: seq<Message>)
    requires Blank(read)
    ensures var a := Listen(read, Documented); a.Queued? ==> Selection(Messages([a.entry]), ms)
  {
    hide Decode;
  }

  lemma {:induction false} SealConcat(a: seq<Message>, b: seq<Message>)
    ensures Seal(a + b) == Seal(a) + Seal(b)
  {
    hide Sealed;
    if a == [] {
      assert a + b == b;
    } else {
      assert (a + b)[1..] == a[1..] + b;
      SealConcat(a[1..], b);
    }
  }

  /** The messages pushed into a client's inbox are among those it wrote, in order. */
  lemma {:induction false} PushedAreWritten(c: CapState, events: seq<Event>, id: Name, written: seq<Message>)
    requires !c.locked && Carry(Reads(events, id), written) && Writable(written)
    ensures Selection(Messages(Pushed(c.server, StepsAlong(c, events), id)), Seal(written))
    decreases |events|
  {
    hide Listen, Carry, Sealed, Happen, StepsOf, Pushed, Run;
    var s := c.server;
    if events != [] {
      var e := events[0];
      DocumentedGoes(c, e);
      var d := Happen(c, e, Documented).state;
      var now, rest := StepsOf(c, e), StepsAlong(d, events[1..]);
      PushedConcat(s, now, rest, id);
      var k := 0;
      if e.Heard? && e.id == id {
        k := ReadQueues(e.read, Reads(events[1..], id), written);
      } else {
        assert [] + Reads(events[1..], id) == Reads(events[1..], id) && written[0..] == written;
      }
      PushedAreWritten(d, events[1..], id, written[k..]);
      PushedByOne(c, e, id, written[..k]);
      MessagesConcat(Pushed(s, now, id), Pushed(d.server, rest, id));
      SealConcat(written[..k], written[k..]);
      assert written[..k] + written[k..] == written;
      SelectionConcat(Messages(Pushed(s, now, id)), Seal(written[..k]),
                      Messages(Pushed(d.server, rest, id)), Seal(written[k..]));
    } else {
      NothingPushed(s, id);
    }
  }

  lemma NothingPushed(s: Server, id: Name)
    ensures Pushed(s, [], id) == []
  {
  }

  lemma PushedByOne(c: CapState, e: Event, id: Name, ms: seq<Message>)
    requires e.Heard? && e.id == id && Listen(e.read, Documented).Queued? ==>
               Selection(Messages([Listen(e.read, Documented).entry]), Seal(ms))
    ensures Selection(Messages(Pushed(c.server, StepsOf(c, e), id)), Seal(ms))
  {
    hide Listen, Seal, StepTo, Registered, Drain, HandleCap, Push;
    var steps := StepsOf(c, e);
    if steps != [] {
      assert steps[1..] == [];
      NothingPushed(StepTo(c.server, steps[0]), id);
      assert Pushed(c.server, steps, id) == PushedNow(c.server, steps[0], id);
    }
  }

  lemma {:induction false} PushedConcat(s: Server, a: seq<Step>, b: seq<Step>, id: Name)
    ensures Pushed(s, a + b, id) == Pushed(s, a, id) + Pushed(Run(s, a), b, id)
    decreases |a|
  {
    hide StepTo, PushedNow;
    if a == [] {
      assert a + b == b;
    } else {
      assert (a + b)[1..] == a[1..] + b;
      PushedConcat(StepTo(s, a[0]), a[1..], b, id);
    }
  }

  /**
   Over every run, whatever else happens in it, the frames that one client gets from another are frames that this
   one wrote, byte for byte, each at most once and in the order written. DispatchExact says which.
   */
  lemma FramesForwarded(c: CapState, events: seq<Event>, from: Name, to: Name, queued: seq<Message>,
                        heard: seq<Message>)
    requires !c.locked && RegistryOk(c.server.folder, c.server.workers)
    requires Messages(InboxOf(c.server.workers, from)) == Seal(queued)
    requires Carry(Reads(events, from), heard) && Writable(heard)
    ensures var o, got := HappenAll(c, events, Documented), Owed(c.server, StepsAlong(c, events), from, to);
            && Sound(o) && Between(o.state.server.sent, from, to) == Between(c.server.sent, from, to) + got
            && Selection(got, Seal(queued + heard)) && Selection(Frames(got), Frames(queued + heard))
  {
    hide Carry, Writable, Selection, Within, Owed, Between, Run, Pushed, StepsAlong, HappenAll, Encoded, Sealed;
    var s, steps := c.server, StepsAlong(c, events);
    var got, pushed := Owed(s, steps, from, to), Pushed(s, steps, from);
    DocumentedIsRun(c, events);
    PerSenderOrder(s, steps, from, to);
    WithinSelects(got, InboxOf(s.workers, from) + pushed);
    MessagesConcat(InboxOf(s.workers, from), pushed);
    PushedAreWritten(c, events, from, heard);
    SelectionSame(Seal(queued));
    SelectionConcat(Seal(queued), Seal(queued), Messages(pushed), Seal(heard));
    SealConcat(queued, heard);
    SelectionTrans(got, Seal(queued) + Messages(pushed), Seal(queued) + Seal(heard));
    SameFrames(got, queued + heard);
  }

  lemma {:induction false} SelectionSame<T>(a: seq<T>)
    ensures Selection(a, a)
  {
    if a != [] {
      SelectionSame(a[1..]);
    }
  }

  // ----- Delivery -----

  lemma {:induction false} BetweenMember(sent: seq<Sent>, from: Name, to: Name, m: Message)
    requires m in Between(sent, from, to)
    ensures Sent(from, to, m) in sent
  {
    if !(sent[0] == Sent(from, to, m)) {
      BetweenMember(sent[1..], from, to, m);
    }
  }

  /** A drain that succeeds has sent its message to every subscriber. */
  lemma DrainDelivers(s: Server, i: nat, refused: Refusals, to: Name)
    requires UniqueIds(s.workers) && i < |s.workers| && s.workers[i].inbox != []
    requires s.workers[i].inbox[0].message.Some? && Drain(s, i, refused).error == SUCCESS
    ensures var m, t := s.workers[i].inbox[0].message.value, Drain(s, i, refused).server;
            && s.sent <= t.sent
            && (Subscribed(s.workers, to, m.remote) ==> Sent(s.workers[i].id, to, m) in t.sent[|s.sent|..])
  {
    hide DispatchTo, Between;
    var ws, id, m := s.workers, s.workers[i].id, s.workers[i].inbox[0].message.value;
    var d := Dispatch(ws, id, m, refused);
    var t := Drain(s, i, refused).server;
    assert t.sent[|s.sent|..] == d.sent;
    DispatchReports(ws, id, m, refused);
    if Subscribed(ws, to, m.remote) {
      var w :| w in ws && w.id == to && w.Matches(m.remote);
      var j :| 0 <= j < |ws| && ws[j] == w;
      assert Unhindered(ws, j + 1, m, refused);
      DispatchExact(ws, id, m, refused, to);
      BetweenMember(d.sent, id, to, m);
    }
  }

  /** A worker that has a message at the head of its inbox. */
  predicate HeadIs(s: Server, i: nat, m: Message) {
    i < |s.workers| && s.workers[i].inbox != [] && s.workers[i].inbox[0].message == Some(m)
  }

  ghost predicate Delivered(sent: seq<Sent>, later: seq<Sent>, ws: seq<Worker>, from: Name, m: Message) {
    sent <= later && forall to :: Subscribed(ws, to, m.remote) ==> Sent(from, to, m) in later[|sent|..]
  }

  lemma SameSubscribed(ws: seq<Worker>, vs: seq<Worker>, to: Name, remote: Data)
    requires SameWorkers(ws, vs) && Subscribed(ws, to, remote)
    ensures Subscribed(vs, to, remote)
  {
    var w :| w in ws && w.id == to && w.Matches(remote);
    var i :| 0 <= i < |ws| && ws[i] == w;
    assert vs[i] in vs && ws[i].(inbox := []).id == vs[i].(inbox := []).id;
  }

  lemma {:induction false} SentGrows(s: Server, i: nat, turns: seq<Turn>)
    requires i <= |s.workers|
    ensures s.sent <= OnceFrom(s, i, turns).server.sent
    decreases |s.workers| - i
  {
    hide Dispatch;
    if i < |s.workers| {
      var t := TurnAt(turns, i);
      var d := Drain(Arrive(s, t.arrivals), i, t.refused);
      ArriveSends(s, t.arrivals);
      if !d.stop {
        SentGrows(d.server, i + 1, turns);
      }
    }
  }

  lemma {:induction false} ArriveSends(s: Server, arrivals: seq<(Name, Entry)>)
    ensures Arrive(s, arrivals).sent == s.sent
    decreases |arrivals|
  {
    if arrivals != [] {
      ArriveSends(Push(s, arrivals[0].0, arrivals[0].1), arrivals[1..]);
    }
  }

  /** What was delivered stays delivered, and the subscribers may be looked up in an earlier server. */
  lemma DeliveredLater(sent: seq<Sent>, mid: seq<Sent>, later: seq<Sent>, ws: seq<Worker>, vs: seq<Worker>,
                       from: Name, m: Message)
    requires SameWorkers(ws, vs)
    requires (sent <= mid && Delivered(mid, later, vs, from, m)) || (mid <= later && Delivered(sent, mid, vs, from, m))
    ensures Delivered(sent, later, ws, from, m)
  {
    forall to | Subscribed(ws, to, m.remote) ensures Sent(from, to, m) in later[|sent|..] {
      SameSubscribed(ws, vs, to, m.remote);
      var x := Sent(from, to, m);
      if sent <= mid && Delivered(mid, later, vs, from, m) {
        var n :| 0 <= n < |later| - |mid| && later[|mid|..][n] == x;
        assert later[|sent|..][n + |mid| - |sent|] == x;
      } else {
        var n :| 0 <= n < |mid| - |sent| && mid[|sent|..][n] == x;
        assert later[|sent|..][n] == x;
      }
    }
  }

  /** A successful pass delivers the head of every inbox it comes to. */
  lemma {:induction false} PassDelivers(s: Server, j: nat, turns: seq<Turn>, i: nat, m: Message)
    requires j <= i && HeadIs(s, i, m) && UniqueIds(s.workers) && EntriesOk(s.workers) && TurnsOk(turns)
    requires OnceFrom(s, j, turns).error == SUCCESS
    ensures Delivered(s.sent, OnceFrom(s, j, turns).server.sent, s.workers, s.workers[i].id, m)
    decreases |s.workers| - j
  {
    hide Drain, Arrive, Subscribed, Delivered;
    var t := TurnAt(turns, j);
    assert ArrivalsOk(t.arrivals);
    var a := Arrive(s, t.arrivals);
    ArriveGrows(s, t.arrivals);
    ArriveSends(s, t.arrivals);
    DrainValid(a, j, t.refused);
    var d := Drain(a, j, t.refused);
    var u := OnceFrom(d.server, j + 1, turns).server;
    HeadStays(s, a, d.server, i, j, m);
    DrainSends(a, j, t.refused);
    if j < i {
      PassDelivers(d.server, j + 1, turns, i, m);
      DeliveredLater(s.sent, d.server.sent, u.sent, s.workers, d.server.workers, s.workers[i].id, m);
    } else {
      HeadDelivered(a, i, t.refused, m);
      SentGrows(d.server, j + 1, turns);
      DeliveredLater(s.sent, d.server.sent, u.sent, s.workers, a.workers, s.workers[i].id, m);
    }
  }

  lemma DrainSends(s: Server, i: nat, refused: Refusals)
    requires i < |s.workers|
    ensures s.sent <= Drain(s, i, refused).server.sent
    ensures !Drain(s, i, refused).stop ==> Drain(s, i, refused).error == SUCCESS
  {
  }

  lemma HeadDelivered(s: Server, i: nat, refused: Refusals, m: Message)
    requires HeadIs(s, i, m) && UniqueIds(s.workers) && Drain(s, i, refused).error == SUCCESS
    ensures Delivered(s.sent, Drain(s, i, refused).server.sent, s.workers, s.workers[i].id, m)
  {
    hide Drain, Subscribed;
    forall to ensures s.sent <= Drain(s, i, refused).server.sent &&
                      (Subscribed(s.workers, to, m.remote) ==>
                         Sent(s.workers[i].id, to, m) in Drain(s, i, refused).server.sent[|s.sent|..]) {
      DrainDelivers(s, i, refused, to);
    }
    DrainSends(s, i, refused);
  }

  lemma HeadStays(s: Server, a: Server, d: Server, i: nat, j: nat, m: Message)
    requires HeadIs(s, i, m) && Grown(s, a) && j < |a.workers| && UniqueIds(s.workers)
    requires d.workers == a.workers[j := a.workers[j].(inbox := a.workers[j].inbox[Min1(a.workers[j].inbox)..])]
    ensures SameWorkers(s.workers, a.workers) && SameWorkers(s.workers, d.workers)
    ensures UniqueIds(a.workers) && UniqueIds(d.workers)
    ensures HeadIs(a, i, m) && a.workers[i].id == s.workers[i].id
    ensures j < i ==> HeadIs(d, i, m) && d.workers[i].id == s.workers[i].id
  {
    forall k | 0 <= k < |s.workers|
      ensures a.workers[k].id == s.workers[k].id && d.workers[k].id == s.workers[k].id
    {
      assert a.workers[k].(inbox := []).id == s.workers[k].(inbox := []).id;
    }
    assert s.workers[i].inbox <= a.workers[i].inbox;
  }

  /** The last of the calls sends this message of the client to everybody who is then subscribed to it. */
  ghost predicate LastDelivers(s: Server, calls: seq<Call>, from: Name, m: Message)
    requires calls != []
    decreases |calls|
  {
    if |calls| > 1 then LastDelivers(Waiting.After(s, calls[0]), calls[1..], from, m)
    else
      var t := Run(s, calls[0].between);
      Delivered(t.sent, Waiting.After(s, calls[0]).sent, t.workers, from, m)
  }

  /**
   Delivery: a message with k entries before it is sent by the (k+1)-th successful call, byte for byte as its frame
   came in, to every client that is subscribed to its remote at that time.
   */
  lemma {:induction false} FrameDelivered(s: Server, calls: seq<Call>, from: Name, k: nat, m: Message)
    requires RegistryOk(s.folder, s.workers) && EntriesOk(s.workers)
    requires |calls| == k + 1 && Succeed(s, calls, from) && k < |InboxOf(s.workers, from)|
    requires InboxOf(s.workers, from)[k].message == Some(Sealed(m))
    ensures LastDelivers(s, calls, from, Sealed(m)) && Encoded(Sealed(m)) == Encoded(m)
    decreases k
  {
    hide Sealed, Encoded, Run, EntriesOk, Delivered, OnceFrom;
    SealedTwice(m);
    var t := Run(s, calls[0].between);
    BetweenKeepsInbox(s, calls[0].between, from);
    CallServes(t, calls[0].turns, from);
    if k > 0 {
      assert InboxOf(t.workers, from)[1..][k - 1] == InboxOf(s.workers, from)[k];
      FrameDelivered(Waiting.After(s, calls[0]), calls[1..], from, k - 1, m);
    } else {
      PassDelivers(t, 0, calls[0].turns, IndexOf(t.workers, from), Sealed(m));
    }
  }

  // ----- From sender to receiver -----

  /**
   What a client sends is queued for its receivers with its payload, lifetime, options and remote, whatever the
   reading and whoever reads; as documented also with its sender's name.
   */
  lemma PayloadArrives(id: Name, remote: Name, data: Data, ttl: byte, options: byte, sending: Reading, reading: Reading)
    requires |id| <= 255 && |remote| <= 255 && 17 + |id| + |remote| + |data| < SIZE_LIMIT
    requires SendMessage(id, remote, data, ttl, options, sending).Some?
    ensures var m := SendMessage(id, remote, data, ttl, options, sending).value;
            var a := Listen(Ok(Encoded(m)), reading);
            && a.Queued? && a.entry.error == SUCCESS && a.entry.message.Some?
            && var n := a.entry.message.value;
               && n.data == data && n.remote == remote && n.ttl == ttl && n.options == options
               && (sending == Documented ==> n.origin == id)
  {
    hide Encoded, Checksum, Listen, SendMessage;
    var m := SendMessage(id, remote, data, ttl, options, sending).value;
    SentFields(id, remote, data, ttl, options, sending);
    FrameBegins(m);
    ListenQueuesFrame(Ok(Encoded(m)), m, reading);
  }

  /** The acknowledgement of a message is queued for the one who sent it, marked as an acknowledgement. */
  lemma AckArrives(id: Name, m: Message, reading: Reading)
    requires m.origin != [] && |m.origin| <= 255 && |id| <= 255
    ensures var a := Listen(Ok(Encoded(AckMessage(id, m))), reading);
            && a.Queued? && a.entry.message.Some?
            && var n := a.entry.message.value;
               n.origin == id && n.remote == CStr(m.origin) && n.options == 2 && n.data == [] && !n.RequiresAck()
  {
    hide Encoded, Checksum, Listen, AckMessage, CStr;
    AckFields(id, m);
    CStrShort(m.origin);
    var ack := AckMessage(id, m);
    FrameBegins(ack);
    ListenQueuesFrame(Ok(Encoded(ack)), ack, reading);
  }
}
