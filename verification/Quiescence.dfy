/** Acknowledgement traffic dies out: an exact count of the steps that any set of messages in flight still causes. */
module Quiescence {
  import opened Bytes
  import opened Types
  import opened Broker
  import opened Clients

  // ----- The network: a fixed set of workers, with the pipes to and from their clients -----

  /** tx[i] and rx[i] hold what the client of worker i has written and has yet to read. */
  datatype Net = Net(server: Server, tx: seq<seq<Message>>, rx: seq<seq<Message>>)

  /** A message the protocol can carry and answer. */
  predicate Answerable(m: Message) {
    m.version == VERSION_1 && (m.RequiresAck() ==> m.origin != [])
  }

  predicate EntryOk(e: Entry) {
    e.message.Some? ==> Answerable(e.message.value)
  }

  predicate QueuesOk(qs: seq<seq<Message>>) {
    forall i, k :: 0 <= i < |qs| && 0 <= k < |qs[i]| ==> Answerable(qs[i][k])
  }

  predicate InboxesOk(ws: seq<Worker>) {
    forall i, k :: 0 <= i < |ws| && 0 <= k < |ws[i].inbox| ==> EntryOk(ws[i].inbox[k])
  }

  predicate NetOk(n: Net) {
    && UniqueIds(n.server.workers) && |n.tx| == |n.rx| == |n.server.workers|
    && QueuesOk(n.tx) && QueuesOk(n.rx) && InboxesOk(n.server.workers)
  }

  // ----- Steps -----

  /**
   Frames carry messages unchanged but for a renewed checksum, so the pipes hold messages here.
   A listener moves a message to its inbox, the main thread serves an inbox, or a client takes a message. One read
   may return the frames of several messages, of which the first is decoded and the others are lost.
   */
  datatype Move = Listening(i: nat, frames: nat) | Serving(i: nat, refused: Refusals) | Taking(i: nat, frames: nat)

  predicate Enabled(n: Net, move: Move) {
    match move
    case Listening(i, frames) => i < |n.tx| && 0 < frames <= |n.tx[i]|
    case Serving(i, _) => i < |n.server.workers| && n.server.workers[i].inbox != []
    case Taking(i, frames) => i < |n.rx| && 0 < frames <= |n.rx[i]|
  }

  /** Nothing is lost: a read returns one frame, and nobody refuses one. */
  predicate Lossless(move: Move) {
    match move
    case Serving(_, refused) => refused == map[]
    case _ => move.frames == 1
  }

  /** Frames written by a dispatch appear in the pipes of their recipients. */
  function Deliver(ws: seq<Worker>, rx: seq<seq<Message>>, sent: seq<Sent>): (r: seq<seq<Message>>)
    requires |rx| == |ws|
    ensures |r| == |rx|
    decreases |sent|
  {
    if sent == [] then rx
    else
      var i := IndexOf(ws, sent[0].to);
      Deliver(ws, if i < |ws| then rx[i := rx[i] + [sent[0].message]] else rx, sent[1..])
  }

  function Next(n: Net, move: Move): (r: Net)
    requires NetOk(n) && Enabled(n, move)
  {
    match move
    case Listening(i, frames) =>
      Net(n.server.(workers := Enqueue(n.server.workers, i, Entry(Some(n.tx[i][0]), SUCCESS))),
          n.tx[i := n.tx[i][frames..]], n.rx)
    case Serving(i, refused) =>
      var r := Drain(n.server, i, refused);
      Net(r.server, n.tx, Deliver(n.server.workers, n.rx, r.server.sent[|n.server.sent|..]))
    case Taking(i, frames) =>
      var m := n.rx[i][0];
      var ack := if m.RequiresAck() then [AckMessage(n.server.workers[i].id, m)] else [];
      Net(n.server, n.tx[i := n.tx[i] + ack], n.rx[i := n.rx[i][frames..]])
  }

  /** The messages of a log that were sent to one name. */
  function SentTo(sent: seq<Sent>, to: Name): (q: seq<Message>) {
    if sent == [] then [] else (if sent[0].to == to then [sent[0].message] else []) + SentTo(sent[1..], to)
  }

  /** Each client's pipe gets what was sent to its name, in order. */
  lemma {:induction false} DeliverExact(ws: seq<Worker>, rx: seq<seq<Message>>, sent: seq<Sent>, i: nat)
    requires UniqueIds(ws) && |rx| == |ws| && i < |ws|
    ensures Deliver(ws, rx, sent)[i] == rx[i] + SentTo(sent, ws[i].id)
    decreases |sent|
  {
    if sent != [] {
      var j := IndexOf(ws, sent[0].to);
      var next := if j < |ws| then rx[j := rx[j] + [sent[0].message]] else rx;
      assert ws[i] in ws;
      assert j == i <==> ws[i].id == sent[0].to;
      DeliverExact(ws, next, sent[1..], i);
      Assoc(rx[i], if sent[0].to == ws[i].id then [sent[0].message] else [], SentTo(sent[1..], ws[i].id));
    }
  }

  /** What the moves do to the pipes: a read takes from the front, and an acknowledgement is written at the end. */
  lemma MovesArePipes(n: Net, i: nat, frames: nat)
    requires NetOk(n) && i < |n.tx|
    ensures Enabled(n, Listening(i, frames)) ==>
              var r := Next(n, Listening(i, frames));
              && r.tx == n.tx[i := n.tx[i][frames..]] && r.rx == n.rx
              && r.server.workers[i].inbox == n.server.workers[i].inbox + [Entry(Some(n.tx[i][0]), SUCCESS)]
    ensures Enabled(n, Taking(i, frames)) ==>
              var r, m := Next(n, Taking(i, frames)), n.rx[i][0];
              && r.server == n.server && r.rx == n.rx[i := n.rx[i][frames..]]
              && if m.options % 2 == 0 then r.tx == n.tx
                 else r.tx == n.tx[i := n.tx[i] + [AckMessage(n.server.workers[i].id, m)]]
  {
    assert n.tx[i] + [] == n.tx[i];
  }

  // ----- Weights -----

  function Sum<T>(q: seq<T>, f: T -> nat): (n: nat) {
    if q == [] then 0 else f(q[0]) + Sum(q[1..], f)
  }

  function SumAll<T>(qs: seq<seq<T>>, f: T -> nat): (n: nat) {
    if qs == [] then 0 else Sum(qs[0], f) + SumAll(qs[1..], f)
  }

  lemma {:induction false} SumSnoc<T>(q: seq<T>, x: T, f: T -> nat)
    ensures Sum(q + [x], f) == Sum(q, f) + f(x)
  {
    if q == [] {
      assert ([] + [x])[1..] == [];
    } else {
      assert (q + [x])[1..] == q[1..] + [x];
      SumSnoc(q[1..], x, f);
    }
  }

  /** Dropping the first elements takes at least the weight of the first one away. */
  lemma {:induction false} SumDrop<T>(q: seq<T>, k: nat, f: T -> nat)
    requires 0 < k <= |q|
    ensures Sum(q[k..], f) + f(q[0]) <= Sum(q, f)
    ensures k == 1 ==> Sum(q[k..], f) + f(q[0]) == Sum(q, f)
    decreases k
  {
    if k > 1 {
      assert q[k..] == q[1..][k - 1..];
      SumDrop(q[1..], k - 1, f);
    }
  }

  lemma {:induction false} SumAllUpdate<T>(qs: seq<seq<T>>, i: nat, q: seq<T>, f: T -> nat)
    requires i < |qs|
    ensures SumAll(qs[i := q], f) == SumAll(qs, f) - Sum(qs[i], f) + Sum(q, f)
  {
    if i == 0 {
      assert qs[0 := q][1..] == qs[1..];
    } else {
      assert qs[i := q][1..] == qs[1..][i - 1 := q];
      SumAllUpdate(qs[1..], i - 1, q, f);
    }
  }

  /** The subscription lists, which no step changes. */
  function Lists(ws: seq<Worker>): (ls: seq<seq<Name>>) {
    seq(|ws|, i requires 0 <= i < |ws| => ws[i].subscriptions)
  }

  /** How many clients a message with this remote reaches when nobody refuses it. */
  function Fan(ls: seq<seq<Name>>, remote: Data): (n: nat) {
    if remote == [] || ls == [] then 0 else (if CStr(remote) in ls[0] then 1 else 0) + Fan(ls[1..], remote)
  }

  /** Steps an acknowledgement still causes from its sender's pipe on: listen, serve, one take per recipient. */
  function AckWork(ls: seq<seq<Name>>, remote: Data): (n: nat) {
    2 + Fan(ls, remote)
  }

  /** Steps a message still causes once it is in a client's pipe. */
  function TakeWork(ls: seq<seq<Name>>, m: Message): (n: nat) {
    1 + if m.RequiresAck() && m.origin != [] then AckWork(ls, AckMessage([], m).remote) else 0
  }

  function ServeWork(ls: seq<seq<Name>>, e: Entry): (n: nat) {
    1 + if e.message.Some? then Fan(ls, e.message.value.remote) * TakeWork(ls, e.message.value) else 0
  }

  function ListenWork(ls: seq<seq<Name>>, m: Message): (n: nat) {
    1 + ServeWork(ls, Entry(Some(m), SUCCESS))
  }

  function TakeWeight(ls: seq<seq<Name>>): Message -> nat {
    m => TakeWork(ls, m)
  }

  function ServeWeight(ls: seq<seq<Name>>): Entry -> nat {
    e => ServeWork(ls, e)
  }

  function ListenWeight(ls: seq<seq<Name>>): Message -> nat {
    m => ListenWork(ls, m)
  }

  function Boxes(ws: seq<Worker>): (qs: seq<seq<Entry>>) {
    seq(|ws|, i requires 0 <= i < |ws| => ws[i].inbox)
  }

  /** The steps that everything in flight still causes. */
  function Work(n: Net): (w: nat) {
    var ls := Lists(n.server.workers);
    SumAll(n.tx, ListenWeight(ls)) + SumAll(Boxes(n.server.workers), ServeWeight(ls)) + SumAll(n.rx, TakeWeight(ls))
  }

  predicate Quiet(n: Net) {
    && (forall i :: 0 <= i < |n.tx| ==> n.tx[i] == [])
    && (forall i :: 0 <= i < |n.rx| ==> n.rx[i] == [])
    && (forall i :: 0 <= i < |n.server.workers| ==> n.server.workers[i].inbox == [])
  }

  // ----- One step is one unit of work -----

  lemma SameLists(ws: seq<Worker>, i: nat, q: seq<Entry>)
    requires i < |ws|
    ensures Lists(ws[i := ws[i].(inbox := q)]) == Lists(ws)
    ensures Boxes(ws[i := ws[i].(inbox := q)]) == Boxes(ws)[i := q]
  {
  }

  lemma {:induction false} DispatchCount(ws: seq<Worker>, from: Name, m: Message, refused: Refusals)
    requires m.version == VERSION_1 && m.remote != []
    ensures var d := DispatchTo(ws, from, m, refused);
            && |d.sent| <= Fan(Lists(ws), m.remote) && (refused == map[] ==> |d.sent| == Fan(Lists(ws), m.remote))
            && forall x :: x in d.sent ==> x.message == m && Registered(ws, x.to)
  {
    if ws != [] {
      DispatchCount(ws[1..], from, m, refused);
      assert Lists(ws)[1..] == Lists(ws[1..]);
      assert ws[0] in ws;
      assert forall w :: w in ws[1..] ==> w in ws;
    }
  }

  lemma {:induction false} DeliverWork(ws: seq<Worker>, rx: seq<seq<Message>>, sent: seq<Sent>, m: Message,
                                       f: Message -> nat)
    requires |rx| == |ws| && forall x :: x in sent ==> x.message == m && Registered(ws, x.to)
    ensures SumAll(Deliver(ws, rx, sent), f) == SumAll(rx, f) + |sent| * f(m)
    decreases |sent|
  {
    if sent != [] {
      assert sent[0] in sent;
      var i := IndexOf(ws, sent[0].to);
      SumSnoc(rx[i], m, f);
      SumAllUpdate(rx, i, rx[i] + [m], f);
      DeliverWork(ws, rx[i := rx[i] + [m]], sent[1..], m, f);
      OneMore(|sent| - 1, f(m));
    }
  }

  lemma OneMore(n: nat, w: nat)
    ensures (n + 1) * w == n * w + w
  {
  }

  lemma {:induction false} DeliverOk(ws: seq<Worker>, rx: seq<seq<Message>>, sent: seq<Sent>)
    requires |rx| == |ws| && QueuesOk(rx) && forall x :: x in sent ==> Answerable(x.message)
    ensures QueuesOk(Deliver(ws, rx, sent))
    decreases |sent|
  {
    if sent != [] {
      var i, x := IndexOf(ws, sent[0].to), sent[0];
      assert x in sent;
      if i < |ws| {
        var q := rx[i] + [x.message];
        assert forall k :: 0 <= k < |q| ==> Answerable(q[k]);
        DeliverOk(ws, rx[i := q], sent[1..]);
      } else {
        DeliverOk(ws, rx, sent[1..]);
      }
    }
  }

  lemma ListeningWork(n: Net, i: nat, frames: nat)
    requires NetOk(n) && i < |n.tx| && 0 < frames <= |n.tx[i]|
    ensures var r := Next(n, Listening(i, frames));
            NetOk(r) && Work(r) + 1 <= Work(n) && (frames == 1 ==> Work(r) + 1 == Work(n))
  {
    var ws, m := n.server.workers, n.tx[i][0];
    var ls, e := Lists(ws), Entry(Some(m), SUCCESS);
    SameLists(ws, i, ws[i].inbox + [e]);
    SumAllUpdate(n.tx, i, n.tx[i][frames..], ListenWeight(ls));
    SumDrop(n.tx[i], frames, ListenWeight(ls));
    SumAllUpdate(Boxes(ws), i, ws[i].inbox + [e], ServeWeight(ls));
    SumSnoc(ws[i].inbox, e, ServeWeight(ls));
    assert Answerable(m);
    var r := Next(n, Listening(i, frames));
    assert forall k :: 0 <= k < |r.tx[i]| ==> r.tx[i][k] == n.tx[i][k + frames];
    assert forall k :: 0 <= k < |ws[i].inbox| ==> EntryOk(ws[i].inbox[k]);
    var box := r.server.workers[i].inbox;
    assert forall k :: 0 <= k < |box| ==> EntryOk(box[k]);
  }

  /** The acknowledgement costs its weight whoever sends it: only its remote matters. */
  lemma AckWeight(ls: seq<seq<Name>>, id: Name, m: Message)
    requires m.RequiresAck() && m.origin != []
    ensures ListenWork(ls, AckMessage(id, m)) == AckWork(ls, AckMessage([], m).remote)
    ensures var ack := AckAsWritten(id, m); ack.Some? ==> ListenWork(ls, ack.value) == ListenWork(ls, AckMessage(id, m))
    ensures Answerable(AckMessage(id, m))
  {
  }

  lemma TakingWork(n: Net, i: nat, frames: nat)
    requires NetOk(n) && i < |n.rx| && 0 < frames <= |n.rx[i]|
    ensures var r := Next(n, Taking(i, frames));
            NetOk(r) && Work(r) + 1 <= Work(n) && (frames == 1 ==> Work(r) + 1 == Work(n))
  {
    var ws, m := n.server.workers, n.rx[i][0];
    var ls := Lists(ws);
    var r := Next(n, Taking(i, frames));
    assert Answerable(m);
    SumAllUpdate(n.rx, i, n.rx[i][frames..], TakeWeight(ls));
    SumDrop(n.rx[i], frames, TakeWeight(ls));
    SumAllUpdate(n.tx, i, r.tx[i], ListenWeight(ls));
    if m.RequiresAck() {
      AckWeight(ls, ws[i].id, m);
      SumSnoc(n.tx[i], AckMessage(ws[i].id, m), ListenWeight(ls));
      assert forall k :: 0 <= k < |n.tx[i]| ==> Answerable(n.tx[i][k]);
    } else {
      assert n.tx[i] + [] == n.tx[i];
    }
    assert forall k :: 0 <= k < |r.rx[i]| ==> r.rx[i][k] == n.rx[i][k + frames];
    assert forall k :: 0 <= k < |r.tx[i]| ==> Answerable(r.tx[i][k]);
  }

  lemma MultiplyMonotone(a: nat, b: nat, c: nat)
    requires a <= b
    ensures a * c <= b * c
  {
  }

  /** A drain frees one entry and turns it into at most its fan of deliveries, exactly so when nobody refuses. */
  lemma ServingShape(n: Net, i: nat, refused: Refusals)
    requires NetOk(n) && i < |n.server.workers| && n.server.workers[i].inbox != []
    ensures var r, w, ls := Next(n, Serving(i, refused)), n.server.workers[i], Lists(n.server.workers);
            && r.tx == n.tx && r.server.workers == n.server.workers[i := w.(inbox := w.inbox[1..])]
            && |r.rx| == |n.rx| && QueuesOk(r.rx)
            && SumAll(r.rx, TakeWeight(ls)) + 1 <= SumAll(n.rx, TakeWeight(ls)) + ServeWork(ls, w.inbox[0])
            && (refused == map[] ==>
                  SumAll(r.rx, TakeWeight(ls)) + 1 == SumAll(n.rx, TakeWeight(ls)) + ServeWork(ls, w.inbox[0]))
  {
    var ws, e := n.server.workers, n.server.workers[i].inbox[0];
    var ls, r := Lists(ws), Drain(n.server, i, refused);
    assert EntryOk(e);
    if e.message.Some? && e.message.value.remote != [] {
      var m := e.message.value;
      var d := DispatchTo(ws, ws[i].id, m, refused);
      DispatchCount(ws, ws[i].id, m, refused);
      DeliverWork(ws, n.rx, d.sent, m, TakeWeight(ls));
      DeliverOk(ws, n.rx, d.sent);
      assert r.server.sent == n.server.sent + d.sent;
      assert r.server.sent[|n.server.sent|..] == d.sent;
      MultiplyMonotone(|d.sent|, Fan(ls, m.remote), TakeWork(ls, m));
    } else {
      assert r.server.sent == n.server.sent || r.server.sent == n.server.sent + [];
      assert r.server.sent[|n.server.sent|..] == [];
    }
  }

  lemma ServingWork(n: Net, i: nat, refused: Refusals)
    requires NetOk(n) && i < |n.server.workers| && n.server.workers[i].inbox != []
    ensures var r := Next(n, Serving(i, refused));
            NetOk(r) && Work(r) + 1 <= Work(n) && (refused == map[] ==> Work(r) + 1 == Work(n))
  {
    var ws := n.server.workers;
    var ls, q := Lists(ws), ws[i].inbox;
    ServingShape(n, i, refused);
    SameLists(ws, i, q[1..]);
    SumAllUpdate(Boxes(ws), i, q[1..], ServeWeight(ls));
    var r := Next(n, Serving(i, refused));
    assert forall k :: 0 <= k < |r.server.workers[i].inbox| ==> r.server.workers[i].inbox[k] == q[k + 1];
  }

  // ----- Runs -----

  /** Every move is enabled when its turn comes; MoveIsWork shows that the network then stays well-formed. */
  predicate Possible(n: Net, moves: seq<Move>)
    requires NetOk(n)
    decreases |moves|
  {
    moves == [] || (Enabled(n, moves[0]) && NetOk(Next(n, moves[0])) && Possible(Next(n, moves[0]), moves[1..]))
  }

  function Final(n: Net, moves: seq<Move>): (r: Net)
    requires NetOk(n) && Possible(n, moves)
    decreases |moves|
  {
    if moves == [] then n else Final(Next(n, moves[0]), moves[1..])
  }

  predicate AllLossless(moves: seq<Move>) {
    forall move :: move in moves ==> Lossless(move)
  }

  lemma MoveIsWork(n: Net, move: Move)
    requires NetOk(n) && Enabled(n, move)
    ensures NetOk(Next(n, move)) && Work(Next(n, move)) + 1 <= Work(n)
    ensures Lossless(move) ==> Work(Next(n, move)) + 1 == Work(n)
  {
    match move
    case Listening(i, frames) => ListeningWork(n, i, frames);
    case Serving(i, refused) => ServingWork(n, i, refused);
    case Taking(i, frames) => TakingWork(n, i, frames);
  }

  /** No schedule is longer than the work there is; when nothing is lost, each step is exactly one unit of it. */
  lemma {:induction false} RunIsWork(n: Net, moves: seq<Move>)
    requires NetOk(n) && Possible(n, moves)
    ensures NetOk(Final(n, moves)) && Work(Final(n, moves)) + |moves| <= Work(n)
    ensures AllLossless(moves) ==> Work(Final(n, moves)) + |moves| == Work(n)
    decreases |moves|
  {
    if moves != [] {
      MoveIsWork(n, moves[0]);
      RunIsWork(Next(n, moves[0]), moves[1..]);
      assert moves[0] in moves;
      assert forall move :: move in moves[1..] ==> move in moves;
    }
  }

  lemma {:induction false} SumZero<T>(qs: seq<seq<T>>, f: T -> nat)
    requires forall x :: f(x) > 0
    ensures SumAll(qs, f) == 0 <==> forall i :: 0 <= i < |qs| ==> qs[i] == []
  {
    if qs != [] {
      SumZero(qs[1..], f);
      assert qs[0] != [] ==> Sum(qs[0], f) >= f(qs[0][0]);
      if forall i :: 0 <= i < |qs| ==> qs[i] == [] {
        assert qs[0] == [];
        assert forall i :: 0 <= i < |qs| - 1 ==> qs[1..][i] == qs[i + 1];
      } else if qs[0] == [] {
        var i :| 0 <= i < |qs| && qs[i] != [];
        assert qs[1..][i - 1] == qs[i];
      }
    }
  }

  /** Nothing is left to do exactly when nothing is in flight, and then and only then no step is possible. */
  lemma QuietIff(n: Net)
    requires NetOk(n)
    ensures Quiet(n) <==> Work(n) == 0
    ensures Quiet(n) <==> forall move :: !Enabled(n, move)
  {
    var ws := n.server.workers;
    var ls := Lists(ws);
    SumZero(n.tx, ListenWeight(ls));
    SumZero(Boxes(ws), ServeWeight(ls));
    SumZero(n.rx, TakeWeight(ls));
    assert forall i :: 0 <= i < |ws| ==> Boxes(ws)[i] == ws[i].inbox;
    if !Quiet(n) {
      if i :| 0 <= i < |n.tx| && n.tx[i] != [] {
        assert Enabled(n, Listening(i, 1));
      } else if i :| 0 <= i < |n.rx| && n.rx[i] != [] {
        assert Enabled(n, Taking(i, 1));
      } else {
        var i :| 0 <= i < |ws| && ws[i].inbox != [];
        assert Enabled(n, Serving(i, map[]));
      }
    }
  }

  /**
   Acknowledgements quiesce: every schedule, with whatever losses, ends after at most as many steps as there was
   work, and where it cannot be continued nothing is in flight. When nothing is lost it gets there after exactly
   that many steps, whatever order they were taken in.
   */
  lemma AcksQuiesce(n: Net, moves: seq<Move>)
    requires NetOk(n) && Possible(n, moves)
    ensures |moves| <= Work(n)
    ensures (forall move :: !Enabled(Final(n, moves), move)) <==> Quiet(Final(n, moves))
    ensures |moves| == Work(n) ==> Quiet(Final(n, moves))
    ensures AllLossless(moves) ==> (Quiet(Final(n, moves)) <==> |moves| == Work(n))
  {
    RunIsWork(n, moves);
    QuietIff(Final(n, moves));
  }
}
