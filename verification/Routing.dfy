/** Who gets what: exact routing, conservation of inboxes and per-sender order, over every run. */
module Routing {
  import opened Bytes
  import opened Types
  import opened Broker
  import opened Control
  import opened Cap

  // ----- One dispatch -----

  /** The messages in a log that went from one name to another. */
  function Between(sent: seq<Sent>, from: Name, to: Name): (ms: seq<Message>) {
    if sent == [] then []
    else (if sent[0].from == from && sent[0].to == to then [sent[0].message] else []) + Between(sent[1..], from, to)
  }

  lemma {:induction false} BetweenConcat(a: seq<Sent>, b: seq<Sent>, from: Name, to: Name)
    ensures Between(a + b, from, to) == Between(a, from, to) + Between(b, from, to)
  {
    if a == [] {
      assert a + b == b;
    } else {
      assert (a + b)[1..] == a[1..] + b;
      BetweenConcat(a[1..], b, from, to);
    }
  }

  /** The client is registered and one of its subscriptions is the remote. */
  predicate Subscribed(ws: seq<Worker>, to: Name, remote: Data) {
    exists w :: w in ws && w.id == to && w.Matches(remote)
  }

  /** No worker before position i that wants the message refuses it. */
  predicate Unhindered(ws: seq<Worker>, i: nat, m: Message, refused: Refusals)
    requires i <= |ws|
  {
    forall j :: 0 <= j < i && ws[j].Matches(m.remote) ==> SendError(ws[j], m, refused) == SUCCESS
  }

  /** The client is subscribed, and neither it nor a subscriber registered before it refuses the message. */
  predicate Reaches(ws: seq<Worker>, to: Name, m: Message, refused: Refusals) {
    m.remote != [] && exists i :: 0 <= i < |ws| && ws[i].id == to && ws[i].Matches(m.remote)
                                  && Unhindered(ws, i + 1, m, refused)
  }

  /** When nobody refuses, reaching a client is its subscription and nothing else. */
  lemma ReachesWithoutRefusal(ws: seq<Worker>, to: Name, m: Message)
    requires m.version == VERSION_1 && m.remote != []
    ensures Reaches(ws, to, m, map[]) <==> Subscribed(ws, to, m.remote)
  {
    if Subscribed(ws, to, m.remote) {
      var w :| w in ws && w.id == to && w.Matches(m.remote);
      var i :| 0 <= i < |ws| && ws[i] == w;
      assert Unhindered(ws, i + 1, m, map[]);
    }
  }

  /** One dispatch sends the message once to each client it reaches, however many subscriptions match. */
  lemma DispatchExact(ws: seq<Worker>, from: Name, m: Message, refused: Refusals, to: Name)
    requires UniqueIds(ws)
    ensures Between(Dispatch(ws, from, m, refused).sent, from, to) == if Reaches(ws, to, m, refused) then [m] else []
    ensures forall other :: other != from ==> Between(Dispatch(ws, from, m, refused).sent, other, to) == []
  {
    if m.remote != [] {
      DispatchToExact(ws, from, m, refused, to);
      forall other | other != from ensures Between(Dispatch(ws, from, m, refused).sent, other, to) == [] {
        DispatchToFrom(ws, from, m, refused, other, to);
      }
    }
  }

  /**
   A dispatch succeeds iff the message has a remote and no subscriber refuses it; otherwise it names the first
   subscriber that does, and has reached exactly the subscribers registered before that one.
   */
  lemma DispatchReports(ws: seq<Worker>, from: Name, m: Message, refused: Refusals)
    ensures var d := Dispatch(ws, from, m, refused);
            && (d.error == SUCCESS <==> m.remote != [] && Unhindered(ws, |ws|, m, refused))
            && (d.error == SUCCESS || m.remote == [] ==> d.client == None)
            && (m.remote == [] ==> d.error == NO_RECIPIENT && d.sent == [])
            && (d.error != SUCCESS && m.remote != [] ==>
                  exists i :: 0 <= i < |ws| && ws[i].Matches(m.remote) && Unhindered(ws, i, m, refused)
                              && d.client == Some(ws[i].id) && d.error == SendError(ws[i], m, refused))
  {
    if m.remote != [] {
      DispatchToReports(ws, from, m, refused);
    }
  }

  lemma {:induction false} DispatchToReports(ws: seq<Worker>, from: Name, m: Message, refused: Refusals)
    ensures var d := DispatchTo(ws, from, m, refused);
            && (d.error == SUCCESS <==> Unhindered(ws, |ws|, m, refused))
            && (d.error == SUCCESS ==> d.client == None)
            && (d.error != SUCCESS ==>
                  exists i :: 0 <= i < |ws| && ws[i].Matches(m.remote) && Unhindered(ws, i, m, refused)
                              && d.client == Some(ws[i].id) && d.error == SendError(ws[i], m, refused))
  {
    if ws != [] {
      var tail := ws[1..];
      DispatchToReports(tail, from, m, refused);
      assert forall j :: 1 <= j < |ws| ==> ws[j] == tail[j - 1];
      assert forall j :: 0 <= j < |tail| ==> tail[j] == ws[j + 1];
      if ws[0].Matches(m.remote) && SendError(ws[0], m, refused) != SUCCESS {
        assert Unhindered(ws, 0, m, refused);
      } else if DispatchTo(tail, from, m, refused).error != SUCCESS {
        var i :| 0 <= i < |tail| && tail[i].Matches(m.remote) && Unhindered(tail, i, m, refused)
                 && DispatchTo(tail, from, m, refused).client == Some(tail[i].id)
                 && DispatchTo(tail, from, m, refused).error == SendError(tail[i], m, refused);
        assert ws[i + 1] == tail[i] && Unhindered(ws, i + 1, m, refused);
      }
    }
  }

  lemma {:induction false} DispatchToExact(ws: seq<Worker>, from: Name, m: Message, refused: Refusals, to: Name)
    requires UniqueIds(ws) && m.remote != []
    ensures Between(DispatchTo(ws, from, m, refused).sent, from, to) == if Reaches(ws, to, m, refused) then [m] else []
  {
    if ws != [] {
      DispatchToExact(ws[1..], from, m, refused, to);
      ReachesStep(ws, to, m, refused);
      var r := DispatchTo(ws[1..], from, m, refused);
      assert ([Sent(from, ws[0].id, m)] + r.sent)[1..] == r.sent;
    }
  }

  lemma ReachesStep(ws: seq<Worker>, to: Name, m: Message, refused: Refusals)
    requires UniqueIds(ws) && m.remote != [] && ws != []
    ensures var ok := ws[0].Matches(m.remote) ==> SendError(ws[0], m, refused) == SUCCESS;
            Reaches(ws, to, m, refused)
            <==> ok && ((ws[0].id == to && ws[0].Matches(m.remote)) || Reaches(ws[1..], to, m, refused))
    ensures ws[0].id == to ==> !Reaches(ws[1..], to, m, refused)
  {
    if Reaches(ws, to, m, refused) {
      var i :| 0 <= i < |ws| && ws[i].id == to && ws[i].Matches(m.remote) && Unhindered(ws, i + 1, m, refused);
      if i > 0 {
        assert ws[1..][i - 1] == ws[i];
        assert Unhindered(ws[1..], i, m, refused);
      }
    }
    if Reaches(ws[1..], to, m, refused) {
      var i :| 0 <= i < |ws| - 1 && ws[1..][i].id == to && ws[1..][i].Matches(m.remote)
               && Unhindered(ws[1..], i + 1, m, refused);
      assert ws[i + 1].id == to;
      if ws[0].Matches(m.remote) ==> SendError(ws[0], m, refused) == SUCCESS {
        assert forall j :: 1 <= j < i + 2 ==> ws[j] == ws[1..][j - 1];
        assert Unhindered(ws, i + 2, m, refused);
      }
    }
    if ws[0].id == to && ws[0].Matches(m.remote) && SendError(ws[0], m, refused) == SUCCESS {
      assert Unhindered(ws, 1, m, refused);
    }
  }

  lemma {:induction false} DispatchToFrom(ws: seq<Worker>, from: Name, m: Message, refused: Refusals, other: Name,
                                          to: Name)
    requires other != from
    ensures Between(DispatchTo(ws, from, m, refused).sent, other, to) == []
  {
    if ws != [] {
      DispatchToFrom(ws[1..], from, m, refused, other, to);
      var r := DispatchTo(ws[1..], from, m, refused);
      assert ([Sent(from, ws[0].id, m)] + r.sent)[1..] == r.sent;
    }
  }

  /** The names of those who have the remote among their subscriptions, in registration order. */
  function Subscribers(ws: seq<Worker>, remote: Data): (ids: seq<Name>) {
    if ws == [] then []
    else (if CStr(remote) in ws[0].subscriptions then [ws[0].id] else []) + Subscribers(ws[1..], remote)
  }

  /** One copy of a message to each of these names. */
  function Copies(from: Name, m: Message, ids: seq<Name>): (sent: seq<Sent>)
    ensures |sent| == |ids|
    ensures forall i :: 0 <= i < |ids| ==> sent[i] == Sent(from, ids[i], m)
  {
    if ids == [] then [] else [Sent(from, ids[0], m)] + Copies(from, m, ids[1..])
  }

  /** How many workers come before the first subscriber that refuses; all of them if there is none. */
  function Willing(ws: seq<Worker>, remote: Data, refused: Refusals): (k: nat)
    ensures k <= |ws|
    ensures forall j :: 0 <= j < k && CStr(remote) in ws[j].subscriptions ==> ws[j].id !in refused
    ensures k < |ws| ==> CStr(remote) in ws[k].subscriptions && ws[k].id in refused
  {
    if ws == [] || (CStr(remote) in ws[0].subscriptions && ws[0].id in refused) then 0
    else
      var k := Willing(ws[1..], remote, refused);
      assert forall j :: 1 <= j < |ws| ==> ws[j] == ws[1..][j - 1];
      k + 1
  }

  /**
   What refusing does: the subscribers before the first one that refuses get the message, in registration order, and
   that one is named together with the error of writing to it; without one the dispatch succeeds.
   */
  lemma RefusalStops(ws: seq<Worker>, from: Name, m: Message, refused: Refusals)
    requires m.version == VERSION_1 && m.remote != []
    ensures Dispatch(ws, from, m, refused) == Stopped(ws, from, m, refused, Willing(ws, m.remote, refused))
  {
    RefusalStopsAt(ws, from, m, refused);
  }

  /** A dispatch that worker k ended, or nobody if there is no such worker. */
  function Stopped(ws: seq<Worker>, from: Name, m: Message, refused: Refusals, k: nat): (d: Dispatched)
    requires k <= |ws| && (k < |ws| ==> ws[k].id in refused)
  {
    Dispatched(Copies(from, m, Subscribers(ws[..k], m.remote)),
               if k == |ws| then SUCCESS else ToServerError(refused[ws[k].id]),
               if k == |ws| then None else Some(ws[k].id))
  }

  lemma {:induction false} RefusalStopsAt(ws: seq<Worker>, from: Name, m: Message, refused: Refusals)
    requires m.version == VERSION_1
    ensures DispatchTo(ws, from, m, refused) == Stopped(ws, from, m, refused, Willing(ws, m.remote, refused))
  {
    hide CStr, ToServerError, Stopped;
    var k := Willing(ws, m.remote, refused);
    if k > 0 {
      RefusalStopsAt(ws[1..], from, m, refused);
      StoppedLater(ws, from, m, refused, k);
    } else {
      StoppedAtOnce(ws, from, m, refused);
    }
  }

  lemma StoppedAtOnce(ws: seq<Worker>, from: Name, m: Message, refused: Refusals)
    requires ws != [] ==> ws[0].id in refused
    ensures Stopped(ws, from, m, refused, 0)
         == if ws == [] then Dispatched([], SUCCESS, None)
            else Dispatched([], ToServerError(refused[ws[0].id]), Some(ws[0].id))
  {
    assert ws[..0] == [];
  }

  lemma StoppedLater(ws: seq<Worker>, from: Name, m: Message, refused: Refusals, k: nat)
    requires 0 < k <= |ws| && (k < |ws| ==> ws[k].id in refused)
    ensures var d := Stopped(ws[1..], from, m, refused, k - 1);
            var first := if CStr(m.remote) in ws[0].subscriptions then [Sent(from, ws[0].id, m)] else [];
            Stopped(ws, from, m, refused, k) == d.(sent := first + d.sent)
  {
    hide CStr, ToServerError;
    SubscribersFirst(ws, k, m.remote);
    assert k < |ws| ==> ws[k] == ws[1..][k - 1];
  }

  lemma SubscribersFirst(ws: seq<Worker>, k: nat, remote: Data)
    requires 0 < k <= |ws|
    ensures Subscribers(ws[..k], remote)
         == (if CStr(remote) in ws[0].subscriptions then [ws[0].id] else []) + Subscribers(ws[1..][..k - 1], remote)
  {
    hide CStr;
    assert ws[..k][1..] == ws[1..][..k - 1];
  }

  /** Nothing is ever sent to a client that refuses, nor anything but the message, nor in another name. */
  lemma {:induction false} RefusedGetNothing(ws: seq<Worker>, from: Name, m: Message, refused: Refusals)
    ensures forall x :: x in Dispatch(ws, from, m, refused).sent ==>
              x.to !in refused && x.from == from && x.message == m && m.version == VERSION_1
  {
    if m.remote != [] {
      SentAreWilling(ws, from, m, refused);
    }
  }

  lemma {:induction false} SentAreWilling(ws: seq<Worker>, from: Name, m: Message, refused: Refusals)
    ensures forall x :: x in DispatchTo(ws, from, m, refused).sent ==>
              x.to !in refused && x.from == from && x.message == m && m.version == VERSION_1
  {
    if ws != [] {
      SentAreWilling(ws[1..], from, m, refused);
    }
  }

  /** A message of another version goes to nobody, and is an error if it has a subscriber. */
  lemma {:induction false} OtherVersionStops(ws: seq<Worker>, from: Name, m: Message, refused: Refusals)
    requires m.version != VERSION_1 && m.remote != []
    ensures var d := Dispatch(ws, from, m, refused);
            && d.sent == []
            && d.error == (if Subscribers(ws, m.remote) == [] then SUCCESS else ServerError.UNSUPPORTED_VERSION)
            && (Subscribers(ws, m.remote) != [] ==> d.client == Some(Subscribers(ws, m.remote)[0]))
  {
    if ws != [] {
      OtherVersionStops(ws[1..], from, m, refused);
    }
  }

  /** As written a dispatch faults iff the time to open the first pipe, 1000 ms per unit of lifetime, is none. */
  lemma DispatchFaultsIff(ws: seq<Worker>, m: Message)
    ensures DispatchFaults(ws, m)
            <==> m.version == 1 && m.remote != [] && 1000 * m.ttl as nat == 0 && Subscribers(ws, m.remote) != []
  {
    hide CStr;
    NobodySubscribed(ws, m.remote);
  }

  lemma {:induction false} NobodySubscribed(ws: seq<Worker>, remote: Data)
    ensures Subscribers(ws, remote) == [] <==> forall w :: w in ws ==> !w.Matches(remote)
  {
    hide CStr;
    if ws != [] {
      NobodySubscribed(ws[1..], remote);
      assert ws[0] in ws && forall w :: w in ws[1..] ==> w in ws;
      assert forall w :: w in ws ==> w == ws[0] || w in ws[1..];
      assert ws[0].Matches(remote) <==> CStr(remote) in ws[0].subscriptions;
    }
  }

  /**
   What one drain reports. An error entry is counted and reported without a client; a message that cannot be
   dispatched is not counted, and the client named is the one it could not be sent to, not its sender.
   */
  lemma DrainReports(s: Server, i: nat, refused: Refusals)
    requires i < |s.workers| && s.workers[i].inbox != [] && s.workers[i].inbox[0].Valid()
    ensures var r, e, ws := Drain(s, i, refused), s.workers[i].inbox[0], s.workers;
            if e.message == None then
              r.requests == 1 && r.error == e.error && r.client == None && r.stop && r.server.sent == s.sent
            else
              var m := e.message.value;
              var k := Willing(ws, m.remote, refused);
              if m.remote == [] then
                r.requests == 0 && r.error == NO_RECIPIENT && r.client == None && r.stop && r.server.sent == s.sent
              else
                && r.server.sent == s.sent + Copies(ws[i].id, m, Subscribers(ws[..k], m.remote))
                && if k == |ws| then r.requests == 1 && r.error == SUCCESS && r.client == None && !r.stop
                   else
                     && r.requests == 0 && r.error == ToServerError(refused[ws[k].id])
                     && r.client == Some(ws[k].id) && r.stop
  {
    hide DispatchTo, CStr;
    var e := s.workers[i].inbox[0];
    if e.message.Some? && e.message.value.remote != [] {
      RefusalStops(s.workers, s.workers[i].id, e.message.value, refused);
    }
  }

  // ----- Routing over a run -----

  /** What one step owes a client: the head of the sender's inbox, if this step takes it and it reaches the client. */
  function OwedNow(s: Server, step: Step, from: Name, to: Name): (ms: seq<Message>) {
    if step.Draining? && step.i < |s.workers| && s.workers[step.i].id == from && s.workers[step.i].inbox != []
       && s.workers[step.i].inbox[0].message.Some?
       && Reaches(s.workers, to, s.workers[step.i].inbox[0].message.value, step.refused)
    then [s.workers[step.i].inbox[0].message.value] else []
  }

  function Owed(s: Server, steps: seq<Step>, from: Name, to: Name): (ms: seq<Message>)
    decreases |steps|
  {
    if steps == [] then [] else OwedNow(s, steps[0], from, to) + Owed(StepTo(s, steps[0]), steps[1..], from, to)
  }

  lemma StepRoutes(s: Server, step: Step, from: Name, to: Name)
    requires UniqueIds(s.workers)
    ensures Between(StepTo(s, step).sent, from, to) == Between(s.sent, from, to) + OwedNow(s, step, from, to)
  {
    if step.Draining? && step.i < |s.workers| && s.workers[step.i].inbox != []
       && s.workers[step.i].inbox[0].message.Some? {
      var w := s.workers[step.i];
      var m := w.inbox[0].message.value;
      var d := Dispatch(s.workers, w.id, m, step.refused);
      DispatchExact(s.workers, w.id, m, step.refused, to);
      BetweenConcat(s.sent, d.sent, from, to);
    } else {
      assert StepTo(s, step).sent == s.sent;
    }
  }

  /**
   Over every interleaving of pushes, drains and CAP requests, what one client gets from another is exactly
   the messages taken from the sender's inbox that reached it, each once and in the order they were taken.
   */
  lemma {:induction false} RoutingExact(s: Server, steps: seq<Step>, from: Name, to: Name)
    requires RegistryOk(s.folder, s.workers)
    ensures Between(Run(s, steps).sent, from, to) == Between(s.sent, from, to) + Owed(s, steps, from, to)
    decreases |steps|
  {
    if steps != [] {
      var t := StepTo(s, steps[0]);
      StepKeepsRegistry(s, steps[0]);
      StepRoutes(s, steps[0], from, to);
      RoutingExact(t, steps[1..], from, to);
      Assoc(Between(s.sent, from, to), OwedNow(s, steps[0], from, to), Owed(t, steps[1..], from, to));
    }
  }

  // ----- Conservation of an inbox -----

  function InboxOf(ws: seq<Worker>, id: Name): (q: seq<Entry>) {
    var i := IndexOf(ws, id);
    if i < |ws| then ws[i].inbox else []
  }

  /** What a step adds to the inbox of a client. */
  function PushedNow(s: Server, step: Step, id: Name): (q: seq<Entry>) {
    if step.Pushing? && step.id == id && Registered(s.workers, id) then [step.entry] else []
  }

  /** What a step takes out of it: the head in a drain, all of it when its worker is stopped. */
  function TakenNow(s: Server, step: Step, id: Name): (q: seq<Entry>) {
    match step
    case Pushing(_, _) => []
    case Draining(i, _) =>
      if i < |s.workers| && s.workers[i].id == id then s.workers[i].inbox[..Min1(s.workers[i].inbox)] else []
    case Controlling(m, env) => if Registered(StepTo(s, step).workers, id) then [] else InboxOf(s.workers, id)
  }

  function Min1(q: seq<Entry>): (n: nat)
    ensures n <= |q|
  {
    if q == [] then 0 else 1
  }

  function Pushed(s: Server, steps: seq<Step>, id: Name): (q: seq<Entry>)
    decreases |steps|
  {
    if steps == [] then [] else PushedNow(s, steps[0], id) + Pushed(StepTo(s, steps[0]), steps[1..], id)
  }

  function Taken(s: Server, steps: seq<Step>, id: Name): (q: seq<Entry>)
    decreases |steps|
  {
    if steps == [] then [] else TakenNow(s, steps[0], id) + Taken(StepTo(s, steps[0]), steps[1..], id)
  }

  lemma IndexOfUnique(ws: seq<Worker>, i: nat)
    requires UniqueIds(ws) && i < |ws|
    ensures IndexOf(ws, ws[i].id) == i
  {
    assert ws[i] in ws;
  }

  lemma SetInbox(ws: seq<Worker>, i: nat, q: seq<Entry>, id: Name)
    requires UniqueIds(ws) && i < |ws|
    ensures InboxOf(ws[i := ws[i].(inbox := q)], id) == if ws[i].id == id then q else InboxOf(ws, id)
  {
    var r := ws[i := ws[i].(inbox := q)];
    assert UniqueIds(r);
    if ws[i].id == id {
      IndexOfUnique(r, i);
    } else if IndexOf(ws, id) < |ws| {
      IndexOfUnique(r, IndexOf(ws, id));
    } else {
      assert forall j :: 0 <= j < |ws| ==> ws[j] in ws && r[j].id == ws[j].id;
      assert IndexOf(r, id) == |r|;
    }
  }

  lemma StopInbox(ws: seq<Worker>, gone: Name, id: Name)
    requires UniqueIds(ws)
    ensures InboxOf(Stop(ws, gone).0, id) == if id == gone then [] else InboxOf(ws, id)
  {
    StopShape(ws, gone);
    var r := Stop(ws, gone).0;
    if id != gone && IndexOf(ws, id) < |ws| {
      var i, j := IndexOf(ws, gone), IndexOf(ws, id);
      IndexOfUnique(r, if j < i then j else j - 1);
    }
  }

  lemma StartInbox(ws: seq<Worker>, w: Worker, id: Name)
    requires UniqueIds(ws) && !Registered(ws, w.id) && w.inbox == []
    ensures InboxOf(ws + [w], id) == InboxOf(ws, id)
  {
    var r := ws + [w];
    assert forall v :: v in ws ==> v.id != w.id;
    assert UniqueIds(r);
    if IndexOf(ws, id) < |ws| {
      IndexOfUnique(r, IndexOf(ws, id));
    }
  }

  lemma EnrolConserves(s: Server, client: Name, groups: seq<Data>, env: CapEnv, id: Name)
    requires RegistryOk(s.folder, s.workers)
    ensures var t := Enrol(s, client, groups, env).server.workers;
            InboxOf(t, id) == if Registered(t, id) then InboxOf(s.workers, id) else []
  {
    hide Assignment, TxPath, RxPath, InboxOf, IndexOf, Stop;
    var w := NewWorker(client, groups, TxPath(s.folder, client), RxPath(s.folder, client));
    UnregisteredInbox(s.workers, id);
    if Start(s.workers, w, env.pipesOk).1 == SUCCESS {
      assert env.pipesOk && Start(s.workers, w, true).0 == s.workers + [w];
      StartInbox(s.workers, w, id);
      StartThenStop(s.workers, w);
      UnregisteredInbox(s.workers + [w], id);
    }
  }

  lemma UnregisteredInbox(ws: seq<Worker>, id: Name)
    ensures !Registered(ws, id) ==> InboxOf(ws, id) == []
  {
  }

  lemma CapConserves(s: Server, m: Message, env: CapEnv, id: Name)
    requires RegistryOk(s.folder, s.workers)
    ensures var t := HandleCap(s, m, env, Documented).server;
            InboxOf(t.workers, id) == if Registered(t.workers, id) then InboxOf(s.workers, id) else []
  {
    hide Enrol, CStr, InboxOf, IndexOf;
    var client := CStr(m.origin);
    UnregisteredInbox(s.workers, id);
    StopConserves(s.workers, client, id);
    if KindOf(m.data) == Cap.Kind.Subscribe && ParseSubscription(m.data).Ok? {
      EnrolConserves(s, client, ParseSubscription(m.data).value.list, env, id);
    }
  }

  lemma StopConserves(ws: seq<Worker>, gone: Name, id: Name)
    requires UniqueIds(ws)
    ensures var r := Stop(ws, gone).0; InboxOf(r, id) == if Registered(r, id) then InboxOf(ws, id) else []
  {
    hide Stop, InboxOf, IndexOf;
    StopInbox(ws, gone, id);
    StopShape(ws, gone);
    UnregisteredInbox(Stop(ws, gone).0, id);
  }

  lemma PushConserves(s: Server, to: Name, e: Entry, id: Name)
    requires UniqueIds(s.workers)
    ensures InboxOf(Push(s, to, e).workers, id) == InboxOf(s.workers, id) + PushedNow(s, Pushing(to, e), id)
  {
    var i := IndexOf(s.workers, to);
    if i < |s.workers| {
      SetInbox(s.workers, i, s.workers[i].inbox + [e], id);
      IndexOfUnique(s.workers, i);
    }
  }

  lemma DrainConserves(s: Server, i: nat, refused: Refusals, id: Name)
    requires UniqueIds(s.workers) && i < |s.workers|
    ensures InboxOf(s.workers, id)
         == TakenNow(s, Draining(i, refused), id) + InboxOf(Drain(s, i, refused).server.workers, id)
  {
    hide Drain, UniqueIds;
    var q := s.workers[i].inbox;
    DrainWorkers(s, i, refused);
    SetInbox(s.workers, i, q[Min1(q)..], id);
    if s.workers[i].id == id {
      IndexOfUnique(s.workers, i);
      assert q == q[..Min1(q)] + q[Min1(q)..];
    }
  }

  lemma DrainWorkers(s: Server, i: nat, refused: Refusals)
    requires i < |s.workers|
    ensures var w := s.workers[i];
            Drain(s, i, refused).server.workers == s.workers[i := w.(inbox := w.inbox[Min1(w.inbox)..])]
  {
  }

  lemma StepConserves(s: Server, step: Step, id: Name)
    requires RegistryOk(s.folder, s.workers)
    ensures InboxOf(s.workers, id) + PushedNow(s, step, id)
         == TakenNow(s, step, id) + InboxOf(StepTo(s, step).workers, id)
  {
    match step
    case Pushing(to, e) => PushConserves(s, to, e, id);
    case Draining(i, refused) =>
      if i < |s.workers| {
        DrainConserves(s, i, refused, id);
      }
    case Controlling(m, env) => CapConserves(s, m, env, id);
  }

  lemma Chain<T>(a: seq<T>, p: seq<T>, t: seq<T>, b: seq<T>, q: seq<T>, u: seq<T>, z: seq<T>)
    requires a + p == t + b && b + q == u + z
    ensures a + (p + q) == (t + u) + z
  {
    assert a + (p + q) == (a + p) + q == t + (b + q) == (t + u) + z;
  }

  /** Whatever was queued or is pushed in a run is taken out, in order, or still queued at its end. */
  lemma {:induction false} InboxConserved(s: Server, steps: seq<Step>, id: Name)
    requires RegistryOk(s.folder, s.workers)
    ensures InboxOf(s.workers, id) + Pushed(s, steps, id) == Taken(s, steps, id) + InboxOf(Run(s, steps).workers, id)
    decreases |steps|
  {
    if steps != [] {
      var t := StepTo(s, steps[0]);
      StepKeepsRegistry(s, steps[0]);
      StepConserves(s, steps[0], id);
      InboxConserved(t, steps[1..], id);
      Chain(InboxOf(s.workers, id), PushedNow(s, steps[0], id), TakenNow(s, steps[0], id), InboxOf(t.workers, id),
            Pushed(t, steps[1..], id), Taken(t, steps[1..], id), InboxOf(Run(s, steps).workers, id));
    }
  }

  /** What a log of dequeued entries says about one client. */
  function Log(drained: seq<(Name, Entry)>, id: Name): (q: seq<Entry>) {
    if drained == [] then []
    else (if drained[0].0 == id then [drained[0].1] else []) + Log(drained[1..], id)
  }

  lemma {:induction false} LogAppend(a: seq<(Name, Entry)>, x: (Name, Entry), id: Name)
    ensures Log(a + [x], id) == Log(a, id) + if x.0 == id then [x.1] else []
  {
    if a == [] {
      assert [x][1..] == [] && a + [x] == [x];
    } else {
      assert (a + [x])[1..] == a[1..] + [x];
      LogAppend(a[1..], x, id);
      Assoc(if a[0].0 == id then [a[0].1] else [], Log(a[1..], id), if x.0 == id then [x.1] else []);
    }
  }

  predicate StaysRegistered(s: Server, steps: seq<Step>, id: Name)
    decreases |steps|
  {
    Registered(s.workers, id) && (steps == [] || StaysRegistered(StepTo(s, steps[0]), steps[1..], id))
  }

  lemma StepLogs(s: Server, step: Step, id: Name)
    requires Registered(StepTo(s, step).workers, id)
    ensures Log(StepTo(s, step).drained, id) == Log(s.drained, id) + TakenNow(s, step, id)
  {
    hide HandleCap;
    match step
    case Pushing(_, _) =>
    case Draining(i, refused) =>
      if i < |s.workers| && s.workers[i].inbox != [] {
        var w := s.workers[i];
        LogAppend(s.drained, (w.id, w.inbox[0]), id);
        assert w.inbox[..Min1(w.inbox)] == [w.inbox[0]];
      }
    case Controlling(m, env) => CapDrainsNothing(s, m, env);
  }

  lemma CapDrainsNothing(s: Server, m: Message, env: CapEnv)
    ensures var r := HandleCap(s, m, env, Documented).server; r.drained == s.drained && r.sent == s.sent
  {
    hide Assignment, ParseGroups, TxPath, RxPath, NewWorker;
  }

  /** While a client stays registered, what is taken from its inbox is what the drains log for it, in order. */
  lemma {:induction false} TakenIsLogged(s: Server, steps: seq<Step>, id: Name)
    requires StaysRegistered(s, steps, id)
    ensures Log(Run(s, steps).drained, id) == Log(s.drained, id) + Taken(s, steps, id)
    decreases |steps|
  {
    hide TakenNow;
    if steps != [] {
      var t := StepTo(s, steps[0]);
      StepLogs(s, steps[0], id);
      TakenIsLogged(t, steps[1..], id);
      Assoc(Log(s.drained, id), TakenNow(s, steps[0], id), Taken(t, steps[1..], id));
    }
  }

  /**
   Conservation: of a client that stays registered, the log of dequeued entries followed by the inbox only ever
   grows, and by exactly what is pushed.
   */
  lemma LoggedOrQueued(s: Server, steps: seq<Step>, id: Name)
    requires RegistryOk(s.folder, s.workers) && StaysRegistered(s, steps, id)
    ensures Log(Run(s, steps).drained, id) + InboxOf(Run(s, steps).workers, id)
         == Log(s.drained, id) + InboxOf(s.workers, id) + Pushed(s, steps, id)
  {
    InboxConserved(s, steps, id);
    TakenIsLogged(s, steps, id);
    var log, q := Log(s.drained, id), InboxOf(s.workers, id);
    Assoc(log, q, Pushed(s, steps, id));
    Assoc(log, Taken(s, steps, id), InboxOf(Run(s, steps).workers, id));
  }

  // ----- Per-sender order -----

  /** a can be obtained from the messages of q by leaving some out. */
  predicate Within(a: seq<Message>, q: seq<Entry>) {
    a == [] || (q != [] && ((q[0].message == Some(a[0]) && Within(a[1..], q[1..])) || Within(a, q[1..])))
  }

  lemma {:induction false} WithinConcat(a: seq<Message>, p: seq<Entry>, b: seq<Message>, q: seq<Entry>)
    requires Within(a, p) && Within(b, q)
    ensures Within(a + b, p + q)
    decreases |p|
  {
    if p == [] {
      assert a + b == b && p + q == q;
    } else {
      assert (p + q)[1..] == p[1..] + q;
      if a != [] && p[0].message == Some(a[0]) && Within(a[1..], p[1..]) {
        assert (a + b)[1..] == a[1..] + b;
        WithinConcat(a[1..], p[1..], b, q);
      } else {
        WithinConcat(a, p[1..], b, q);
      }
    }
  }

  lemma OwedIsTaken(s: Server, step: Step, from: Name, to: Name)
    ensures Within(OwedNow(s, step, from, to), TakenNow(s, step, from))
  {
    if OwedNow(s, step, from, to) != [] {
      var q := s.workers[step.i].inbox;
      assert TakenNow(s, step, from) == q[..1] == [q[0]];
    }
  }

  lemma {:induction false} OwedWithinTaken(s: Server, steps: seq<Step>, from: Name, to: Name)
    ensures Within(Owed(s, steps, from, to), Taken(s, steps, from))
    decreases |steps|
  {
    if steps != [] {
      OwedIsTaken(s, steps[0], from, to);
      OwedWithinTaken(StepTo(s, steps[0]), steps[1..], from, to);
      WithinConcat(OwedNow(s, steps[0], from, to), TakenNow(s, steps[0], from),
                   Owed(StepTo(s, steps[0]), steps[1..], from, to), Taken(StepTo(s, steps[0]), steps[1..], from));
    }
  }

  lemma {:induction false} WithinEmptyTail(a: seq<Message>, p: seq<Entry>, q: seq<Entry>)
    requires Within(a, p)
    ensures Within(a, p + q)
  {
    assert Within([], q);
    WithinConcat(a, p, [], q);
    assert a + [] == a;
  }

  /** In every run, what a client gets from a sender comes in the order the sender's listener queued it. */
  lemma PerSenderOrder(s: Server, steps: seq<Step>, from: Name, to: Name)
    requires RegistryOk(s.folder, s.workers)
    ensures var got := Owed(s, steps, from, to);
            && Between(Run(s, steps).sent, from, to) == Between(s.sent, from, to) + got
            && Within(got, InboxOf(s.workers, from) + Pushed(s, steps, from))
  {
    RoutingExact(s, steps, from, to);
    OwedWithinTaken(s, steps, from, to);
    InboxConserved(s, steps, from);
    WithinEmptyTail(Owed(s, steps, from, to), Taken(s, steps, from), InboxOf(Run(s, steps).workers, from));
  }
}
