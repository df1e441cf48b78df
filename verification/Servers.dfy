/** The objects of src/server.c: workers that own an inbox, and the server that owns the workers. */
module Servers {
  import opened Bytes
  import opened Types
  import opened Broker
  import opened Inboxes
  import opened Frame
  import opened Cap
  import opened Control

  /** OctopipesServerWorker. Everything but the inbox is set once, by worker_init. */
  class ClientWorker {
    const id: Name
    const subscriptions: seq<Name>
    const pipeRead: Name
    const pipeWrite: Name
    const inbox: Inbox

    ghost function View(): (w: Worker)
      reads inbox, inbox.messages
      requires inbox.Valid()
    {
      Worker(id, subscriptions, pipeRead, pipeWrite, inbox.Contents())
    }

    /** worker_init: copies the groups and adds the client's own name as the last subscription. */
    constructor (groups: seq<Data>, client: Name, read: Name, write: Name)
      ensures fresh(inbox) && fresh(inbox.messages) && inbox.Valid()
      ensures View() == NewWorker(client, groups, read, write)
    {
      id, pipeRead, pipeWrite := client, read, write;
      var list: seq<Name> := [];
      for i := 0 to |groups|
        invariant list == seq(i, j requires 0 <= j < i <= |groups| => CStr(groups[j]))
      {
        list := list + [CStr(groups[i])];
      }
      subscriptions := list + [client];
      inbox := new Inbox();
    }

    /** worker_match_subscription. */
    method MatchSubscription(remote: Data) returns (found: bool)
      ensures found <==> CStr(remote) in subscriptions
    {
      for i := 0 to |subscriptions|
        invariant CStr(remote) !in subscriptions[..i]
      {
        if subscriptions[i] == CStr(remote) {
          return true;
        }
      }
      assert subscriptions[..|subscriptions|] == subscriptions;
      found := false;
    }
  }

  datatype ServerState = INIT | RUNNING | BLOCK | STOPPED

  /** OctopipesServer: the registry, and logs of what went in and out. */
  class OctopipesServer {
    const folder: Name
    var workers: seq<ClientWorker>
    var sent: seq<Sent>
    var replies: seq<Data>
    var state: ServerState
    ghost var drained: seq<(Name, Entry)>

    /** The workers as values. */
    ghost var views: seq<Worker>

    /** The worker, by position, to which an inbox or the array of an inbox belongs. */
    ghost var owner: map<object, nat>

    /** The views are up to date, and no two workers share an inbox or its array. */
    ghost predicate Valid()
      reads this, owner.Keys
    {
      && this !in owner && |views| == |workers|
      && forall i :: 0 <= i < |workers| ==> var b := workers[i].inbox;
           && b in owner && owner[b] == i && b.messages in owner && owner[b.messages] == i
           && b.Valid() && views[i] == workers[i].View()
    }

    ghost function Model(): (s: Server)
      reads this
    {
      Server(folder, views, drained, sent, replies)
    }

    constructor (clientFolder: Name)
      ensures Valid() && Model() == Server(clientFolder, [], [], [], []) && state == INIT
    {
      state := INIT;
      folder, workers, sent, replies, drained := clientFolder, [], [], [], [];
      views, owner := [], map[];
    }

    /** The search loop shared by the registry functions. */
    method Find(client: Name) returns (i: nat)
      requires Valid()
      ensures i == IndexOf(views, client)
    {
      i := 0;
      while i < |workers|
        invariant i <= |workers| && forall j :: 0 <= j < i ==> workers[j].id != client
      {
        if workers[i].id == client {
          FirstIndex(views, client, i);
          return;
        }
        i := i + 1;
      }
      FirstIndex(views, client, i);
    }

    /** octopipes_server_is_subscribed. */
    method IsSubscribed(client: Name) returns (rc: ServerError)
      requires Valid()
      ensures rc == if Registered(views, client) then SUCCESS else WORKER_NOT_FOUND
    {
      var i := Find(client);
      rc := if i < |workers| then SUCCESS else WORKER_NOT_FOUND;
    }

    /** octopipes_server_get_clients. */
    method GetClients() returns (clients: seq<Name>)
      requires Valid()
      ensures clients == Clients(views)
    {
      clients := [];
      for i := 0 to |workers|
        invariant clients == Clients(views)[..i]
      {
        clients := clients + [workers[i].id];
      }
    }

    /** octopipes_server_get_subscriptions. */
    method GetSubscriptions(client: Name) returns (rc: ServerError, list: seq<Name>)
      requires Valid()
      ensures if Registered(views, client) then rc == SUCCESS && list == views[IndexOf(views, client)].subscriptions
              else rc == WORKER_NOT_FOUND && list == []
    {
      var i := Find(client);
      if i < |workers| {
        return SUCCESS, workers[i].subscriptions;
      }
      return WORKER_NOT_FOUND, [];
    }

    /** octopipes_server_start_worker. */
    method StartWorker(client: Name, groups: seq<Data>, txPipe: Name, rxPipe: Name, pipesOk: bool)
      returns (rc: ServerError)
      requires Valid()
      modifies this`workers, this`views, this`owner
      ensures Valid() && fresh(owner.Keys - old(owner.Keys))
      ensures (views, rc) == Start(old(views), NewWorker(client, groups, txPipe, rxPipe), pipesOk)
    {
      hide IndexOf, CStr;
      rc := IsSubscribed(client);
      if rc == SUCCESS {
        return WORKER_EXISTS;
      }
      if !pipesOk {
        return ServerError.OPEN_FAILED;
      }
      var w := new ClientWorker(groups, client, txPipe, rxPipe);
      workers := workers + [w];
      owner := owner[w.inbox := |workers| - 1][w.inbox.messages := |workers| - 1];
      views := views + [w.View()];
      rc := SUCCESS;
    }

    /** octopipes_server_stop_worker: the workers after the stopped one move one place down. */
    method StopWorker(client: Name) returns (rc: ServerError)
      requires Valid()
      modifies this`workers, this`views, this`owner
      ensures Valid() && owner.Keys == old(owner.Keys)
      ensures (views, rc) == Stop(old(views), client)
    {
      var at := Find(client);
      if at == |workers| {
        return WORKER_NOT_FOUND;
      }
      RemoveAt(at);
      rc := SUCCESS;
    }

    method RemoveAt(at: nat)
      requires Valid() && at < |workers|
      modifies this`workers, this`views, this`owner
      ensures Valid() && owner.Keys == old(owner.Keys)
      ensures views == old(views)[..at] + old(views)[at + 1..]
    {
      workers := ShiftDown(workers, at);
      views := views[..at] + views[at + 1..];
      owner := map o <- owner :: if owner[o] > at then owner[o] - 1 else owner[o];
      forall k | 0 <= k < |workers|
        ensures workers[k] == old(workers)[if k < at then k else k + 1]
        ensures views[k] == old(views)[if k < at then k else k + 1]
      {
      }
    }

    /** Moves every worker after position at one place towards the front, and drops the last place. */
    static method ShiftDown(workers: seq<ClientWorker>, at: nat) returns (list: seq<ClientWorker>)
      requires at < |workers|
      ensures list == workers[..at] + workers[at + 1..]
    {
      list := workers;
      var length := |workers| - 1;
      for j := at to length
        invariant |list| == |workers|
        invariant forall k :: 0 <= k < |list| && (k < at || j <= k) ==> list[k] == workers[k]
        invariant forall k :: at <= k < j ==> list[k] == workers[k + 1]
      {
        list := list[j := list[j + 1]];
      }
      list := list[..length];
    }

    /** octopipes_server_lock_cap, without its sleep. */
    method LockCap() returns (rc: ServerError)
      modifies this`state
      ensures if old(state) == RUNNING then rc == SUCCESS && state == BLOCK
              else rc == ServerError.UNINITIALIZED && state == old(state)
    {
      if state != RUNNING {
        return ServerError.UNINITIALIZED;
      }
      state := BLOCK;
      rc := SUCCESS;
    }

    /** octopipes_server_unlock_cap. */
    method UnlockCap()
      modifies this`state
      ensures state == if old(state) == BLOCK then RUNNING else old(state)
    {
      if state == BLOCK {
        state := RUNNING;
      }
    }

    /** octopipes_server_write_cap: every way out leaves the state as it was found. */
    method WriteCap(client: Name, payload: Data, sending: Result<()>) returns (rc: ServerError)
      modifies this`state, this`replies
      ensures state == old(state)
      ensures old(state) != RUNNING ==> rc == ServerError.UNINITIALIZED && replies == old(replies)
      ensures old(state) == RUNNING ==>
                rc == (if sending.Ok? then SUCCESS else ToServerError(sending.error))
                && replies == old(replies) + if sending.Ok? then [Encoded(ReplyMessage(client, payload))] else []
    {
      if state != RUNNING {
        return ServerError.UNINITIALIZED;
      }
      var frame := Encoded(ReplyMessage(client, payload));
      rc := LockCap();
      if rc != SUCCESS {
        return;
      }
      if sending.Err? {
        UnlockCap();
        return ToServerError(sending.error);
      }
      replies := replies + [frame];
      UnlockCap();
    }

    /** cap_manage_subscription. */
    method ManageSubscription(client: Name, payload: Data, env: CapEnv) returns (rc: ServerError)
      requires Valid() && state == RUNNING
      modifies this`workers, this`views, this`owner, this`state, this`replies
      ensures Valid() && fresh(owner.Keys - old(owner.Keys)) && state == RUNNING
      ensures Handled(Model(), rc) == AnswerSubscription(old(Model()), client, payload, env, Documented)
    {
      var parsed := ParseSubscribe(payload);
      if parsed.Err? {
        return ToServerError(parsed.error);
      }
      var groups := parsed.value;
      if |groups.list| < groups.announced {
        return ServerError.BAD_PACKET;
      }
      rc := EnrolClient(client, groups.list, env);
    }

    method EnrolClient(client: Name, groups: seq<Data>, env: CapEnv) returns (rc: ServerError)
      requires Valid() && state == RUNNING
      modifies this`workers, this`views, this`owner, this`state, this`replies
      ensures Valid() && fresh(owner.Keys - old(owner.Keys)) && state == RUNNING
      ensures Handled(Model(), rc) == Enrol(old(Model()), client, groups, env)
    {
      hide Assignment, IndexOf, TxPath, RxPath, Encoded, NewWorker, Stop, Registered, ToServerError;
      var tx, rx := TxPath(folder, client), RxPath(folder, client);
      rc := StartWorker(client, groups, tx, rx, env.pipesOk);
      if rc != SUCCESS {
        var error := if rc == WORKER_EXISTS then NAME_ALREADY_TAKEN else FS;
        rc := WriteCap(client, Assignment(error, [], []), env.reply);
      } else {
        rc := ReplyOrStop(client, Assignment(CAP_SUCCESS, tx, rx), env.reply);
      }
    }

    /** The end of a subscription: a worker whose client cannot be told about it is stopped again. */
    method ReplyOrStop(client: Name, payload: Data, reply: Result<()>) returns (rc: ServerError)
      requires Valid() && state == RUNNING
      modifies this`workers, this`views, this`owner, this`state, this`replies
      ensures Valid() && owner.Keys == old(owner.Keys) && state == RUNNING
      ensures if reply.Ok? then rc == SUCCESS && Model() == Reply(old(Model()), client, payload)
              else rc == ToServerError(reply.error) && Model() == old(Model()).(workers := Stop(old(views), client).0)
    {
      hide Stop, Encoded;
      rc := WriteCap(client, payload, reply);
      if rc != SUCCESS {
        var stopped := StopWorker(client);
      }
    }

    /** cap_manage_unsubscription. */
    method ManageUnsubscription(client: Name, payload: Data) returns (rc: ServerError)
      requires Valid()
      modifies this`workers, this`views, this`owner
      ensures Valid() && owner.Keys == old(owner.Keys)
      ensures Handled(Model(), rc) == AnswerUnsubscription(old(Model()), client, payload, Documented)
    {
      if KindOf(payload) != Kind.Unsubscribe {
        return ServerError.BAD_PACKET;
      }
      rc := StopWorker(client);
    }

    /** The search of cap_manage_unsubscription as written, whose loop only tests that there are workers. */
    method SearchAsWritten(client: Name) returns (found: bool, fault: bool)
      requires Valid()
      ensures fault <==> !Registered(views, client) && views != []
      ensures !fault ==> (found <==> Registered(views, client))
    {
      var i := 0;
      while |workers| != 0
        invariant i <= |workers| && forall j :: 0 <= j < i ==> views[j].id != client
        decreases |workers| - i
      {
        if i >= |workers| {
          return false, true;
        }
        if workers[i].id == client {
          assert views[i] in views;
          return true, false;
        }
        i := i + 1;
      }
      found, fault := false, false;
    }

    /** octopipes_server_handle_cap_message. */
    method HandleCapMessage(m: Message, env: CapEnv) returns (rc: ServerError)
      requires Valid() && state == RUNNING
      modifies this`workers, this`views, this`owner, this`state, this`replies
      ensures Valid() && fresh(owner.Keys - old(owner.Keys)) && state == RUNNING
      ensures Handled(Model(), rc) == HandleCap(old(Model()), m, env, Documented)
    {
      if m.data == [] || m.origin == [] {
        return ServerError.BAD_PACKET;
      }
      match KindOf(m.data) {
        case Subscribe => rc := ManageSubscription(CStr(m.origin), m.data, env);
        case Unsubscribe => rc := ManageUnsubscription(CStr(m.origin), m.data);
        case _ => rc := ServerError.BAD_PACKET;
      }
    }

    /** message_inbox_push under the lock of worker i. */
    method QueueAt(i: nat, e: Entry)
      requires Valid() && i < |workers|
      modifies this`views, this`owner, workers[i].inbox
      ensures Valid() && fresh(owner.Keys - old(owner.Keys))
      ensures views == Enqueue(old(views), i, e)
    {
      var inbox := workers[i].inbox;
      inbox.Push(e.message, e.error);
      owner := owner[inbox.messages := i];
      views := Enqueue(views, i, e);
    }

    /** A listener queues an entry in the inbox of its worker. */
    method Listener(client: Name, e: Entry)
      requires Valid()
      modifies this`views, this`owner, owner.Keys
      ensures Valid() && fresh(owner.Keys - old(owner.Keys))
      ensures Model() == Push(old(Model()), client, e)
    {
      var i := Find(client);
      if i < |workers| {
        QueueAt(i, e);
      }
    }

    method Listeners(arrivals: seq<(Name, Entry)>)
      requires Valid()
      modifies this`views, this`owner, owner.Keys
      ensures Valid() && fresh(owner.Keys - old(owner.Keys))
      ensures Model() == Arrive(old(Model()), arrivals)
    {
      assert arrivals[0..] == arrivals;
      for i := 0 to |arrivals|
        invariant Valid() && fresh(owner.Keys - old(owner.Keys))
        invariant Arrive(old(Model()), arrivals) == Arrive(Model(), arrivals[i..])
      {
        assert arrivals[i..][0] == arrivals[i] && arrivals[i..][1..] == arrivals[i + 1..];
        Listener(arrivals[i].0, arrivals[i].1);
      }
    }

    /** octopipes_server_dispatch_message; from is the worker whose inbox held the message. */
    method DispatchMessage(from: Name, m: Message, refused: Refusals, reading: Reading)
      returns (rc: ServerError, client: Option<Name>, fault: bool)
      requires Valid()
      modifies this`sent
      ensures fault <==> reading == AsWritten && DispatchFaults(views, m)
      ensures !fault ==>
                var d := Dispatch(views, from, m, refused);
                rc == d.error && client == d.client && sent == old(sent) + d.sent
    {
      hide CStr, DispatchTo, DispatchFaults, SendError, SendFaults, After, ToServerError;
      ghost var ws, out := views, [];
      assert forall k :: 0 <= k < |ws| ==> SameClient(workers[k], ws[k]);
      DispatchEnds(ws, from, m, refused);
      if m.remote == [] {
        return NO_RECIPIENT, None, false;
      }
      hide Valid, Model;
      assert ws[0..] == ws;
      AfterNothing(DispatchTo(ws, from, m, refused));
      for i := 0 to |workers|
        invariant sent == old(sent) + out
        invariant reading == AsWritten && SendFaults(m) ==> forall j :: 0 <= j < i ==> !ws[j].Matches(m.remote)
        invariant DispatchTo(ws, from, m, refused) == After(out, DispatchTo(ws[i..], from, m, refused))
      {
        var w := workers[i];
        var found := w.MatchSubscription(m.remote);
        assert SameClient(w, ws[i]);
        DispatchStep(ws, i, from, m, refused, out);
        if found {
          rc, fault := Send(w, ws[i], from, m, refused, reading);
          if fault {
            return rc, None, true;
          }
          if rc != SUCCESS {
            return rc, Some(w.id), false;
          }
          out := out + [Sent(from, w.id, m)];
        }
      }
      AfterAll(out);
      rc, client, fault := SUCCESS, None, false;
    }

    /** worker_send. As written, a lifetime of 0 is no time to open the pipe, which is then polled unopened. */
    method Send(w: ClientWorker, ghost view: Worker, from: Name, m: Message, refused: Refusals, reading: Reading)
      returns (rc: ServerError, fault: bool)
      requires SameClient(w, view)
      modifies this`sent
      ensures fault <==> reading == AsWritten && SendFaults(m)
      ensures !fault ==> rc == SendError(view, m, refused)
      ensures sent == if !fault && rc == SUCCESS then old(sent) + [Sent(from, w.id, m)] else old(sent)
    {
      if m.version != VERSION_1 {
        return ServerError.UNSUPPORTED_VERSION, false;
      }
      if reading == AsWritten && m.ttl as nat * 1000 == 0 {
        return UNKNOWN, true;
      }
      if w.id in refused {
        return ToServerError(refused[w.id]), false;
      }
      sent := sent + [Sent(from, w.id, m)];
      rc, fault := SUCCESS, false;
    }

    /** worker_get_next_message: message_inbox_dequeue under the lock of worker i. */
    method TakeAt(i: nat, reading: Reading) returns (head: Option<Entry>, fault: bool)
      requires Valid() && i < |workers|
      modifies this`views, this`owner, workers[i].inbox, workers[i].inbox.messages
      ensures fault <==> reading == AsWritten && |old(views)[i].inbox| > 1
      ensures !fault ==>
                && Valid() && fresh(owner.Keys - old(owner.Keys))
                && var w := old(views)[i];
                   if w.inbox == [] then head == None && views == old(views)
                   else head == Some(w.inbox[0]) && views == old(views)[i := w.(inbox := w.inbox[1..])]
    {
      var inbox := workers[i].inbox;
      if reading == AsWritten {
        var result := inbox.DequeueAsWritten();
        if result.None? {
          return None, true;
        }
        head := result.value;
      } else {
        head := inbox.Dequeue();
      }
      fault := false;
      owner := owner[inbox.messages := i];
      views := views[i := workers[i].View()];
    }

    /** The body of the drain loops: dequeue, then dispatch. stop: the caller must return. */
    method DrainOne(i: nat, refused: Refusals, reading: Reading)
      returns (requests: nat, rc: ServerError, client: Option<Name>, stop: bool, fault: bool)
      requires Valid() && i < |workers|
      modifies this`sent, this`drained, this`views, this`owner, workers[i].inbox, workers[i].inbox.messages
      ensures fault <==> reading == AsWritten && DrainFaults(old(Model()), i)
      ensures !fault ==>
                && Valid() && fresh(owner.Keys - old(owner.Keys))
                && Report(Model(), requests, rc, client, stop) == Drain(old(Model()), i, refused)
                && (!stop ==> rc == SUCCESS && client == None)
    {
      hide Dispatch, DispatchFaults;
      ghost var s := Model();
      var id, head := workers[i].id, None;
      requests, rc, client, stop := 0, SUCCESS, None, false;
      head, fault := TakeAt(i, reading);
      if head.Some? && !fault {
        requests, rc, client, stop, fault := Handle(id, head.value, refused, reading, s, i);
      }
    }

    /** What is done with an entry that was dequeued from inbox i of the server s. */
    method Handle(id: Name, e: Entry, refused: Refusals, reading: Reading, ghost s: Server, ghost i: nat)
      returns (requests: nat, rc: ServerError, client: Option<Name>, stop: bool, fault: bool)
      requires Valid() && i < |s.workers| && s.workers[i].id == id && s.workers[i].inbox != []
      requires e == s.workers[i].inbox[0]
      requires Model() == s.(workers := s.workers[i := s.workers[i].(inbox := s.workers[i].inbox[1..])])
      modifies this`sent, this`drained
      ensures fault <==> reading == AsWritten && e.message.Some? && DispatchFaults(s.workers, e.message.value)
      ensures Valid()
      ensures !fault ==>
                && Report(Model(), requests, rc, client, stop) == Drain(s, i, refused)
                && (!stop ==> rc == SUCCESS && client == None)
    {
      hide Dispatch, DispatchFaults, Drain;
      DrainEffect(s, i, refused);
      drained := drained + [(id, e)];
      if e.message.None? {
        return 1, e.error, None, true, false;
      }
      SameAfterTake(s.workers, i, id, e.message.value, refused);
      rc, client, fault := DispatchMessage(id, e.message.value, refused, reading);
      requests := if rc == SUCCESS then 1 else 0;
      stop := rc != SUCCESS;
      if rc == SUCCESS {
        client := None;
      }
    }

    /** One turn of process_first, after the listeners had their chance; goal is what the call will report. */
    method FirstTurn(i: nat, turns: seq<Turn>, reading: Reading, ghost goal: Report, ghost runs: bool)
      returns (found: bool, requests: nat, rc: ServerError, client: Option<Name>, fault: bool)
      requires Valid() && i < |workers| && goal == FirstFrom(Model(), i, turns)
      requires runs == FirstRuns(Model(), i, turns, reading)
      modifies this`sent, this`drained, this`views, this`owner, owner.Keys
      ensures workers == old(workers)
      ensures fault ==> !runs
      ensures !fault ==>
                && Valid() && fresh(owner.Keys - old(owner.Keys))
                && if found then runs && Reported(goal, requests, rc, client)
                   else
                     && goal == FirstFrom(Model(), i + 1, turns) && runs == FirstRuns(Model(), i + 1, turns, reading)
                     && requests == 0 && rc == SUCCESS && client == None
    {
      hide Drain, DrainFaults;
      var t := TurnAt(turns, i);
      FirstUnfolds(Model(), i, turns, reading);
      Listeners(t.arrivals);
      found, requests, rc, client, fault := workers[i].inbox.length > 0, 0, SUCCESS, None, false;
      if found {
        var stop;
        requests, rc, client, stop, fault := DrainOne(i, t.refused, reading);
      }
    }

    /** One turn of process_once, which has counted some requests. */
    method OnceTurn(i: nat, turns: seq<Turn>, reading: Reading, counted: nat, ghost goal: Report, ghost runs: bool)
      returns (requests: nat, rc: ServerError, client: Option<Name>, stop: bool, fault: bool)
      requires Valid() && i < |workers| && goal == Later(counted, OnceFrom(Model(), i, turns))
      requires runs == OnceRuns(Model(), i, turns, reading)
      modifies this`sent, this`drained, this`views, this`owner, owner.Keys
      ensures workers == old(workers)
      ensures fault ==> !runs
      ensures !fault ==>
                && Valid() && fresh(owner.Keys - old(owner.Keys))
                && if stop then runs && Reported(goal, requests, rc, client)
                   else
                     && goal == Later(requests, OnceFrom(Model(), i + 1, turns))
                     && runs == OnceRuns(Model(), i + 1, turns, reading) && rc == SUCCESS && client == None
    {
      hide Drain, Arrive, DrainFaults;
      var t := TurnAt(turns, i);
      OnceUnfolds(Model(), i, turns, counted, reading);
      Listeners(t.arrivals);
      requests, rc, client, stop, fault := DrainOne(i, t.refused, reading);
      requests := counted + requests;
    }

    /** The call may return: its state and its results are those of the report. */
    ghost predicate Reported(r: Report, requests: nat, rc: ServerError, client: Option<Name>)
      reads this
    {
      Model() == r.server && requests == r.requests && rc == r.error && client == r.client
    }

    /** octopipes_server_process_first; as written, it faults iff the drain it makes does. */
    method ProcessFirst(turns: seq<Turn>, reading: Reading)
      returns (requests: nat, rc: ServerError, client: Option<Name>, fault: bool)
      requires Valid()
      modifies this`sent, this`drained, this`views, this`owner, owner.Keys
      ensures fault <==> !FirstRuns(old(Model()), 0, turns, reading)
      ensures !fault ==>
                && Valid() && fresh(owner.Keys - old(owner.Keys))
                && Reported(FirstFrom(old(Model()), 0, turns), requests, rc, client)
    {
      hide Drain, Arrive, FirstRuns;
      ghost var goal, runs := FirstFrom(Model(), 0, turns), FirstRuns(Model(), 0, turns, reading);
      requests, rc, client, fault := 0, SUCCESS, None, false;
      var i, found := 0, false;
      while i < |workers| && !found
        invariant Valid() && fresh(owner.Keys - old(owner.Keys)) && i <= |workers|
        invariant if found then runs && Reported(goal, requests, rc, client)
                  else
                    && goal == FirstFrom(Model(), i, turns) && runs == FirstRuns(Model(), i, turns, reading)
                    && requests == 0 && rc == SUCCESS && client == None
        decreases !found, |workers| - i
      {
        found, requests, rc, client, fault := FirstTurn(i, turns, reading, goal, runs);
        if fault {
          return;
        }
        i := i + 1;
      }
      FirstEnds(Model(), turns, reading);
    }

    /** octopipes_server_process_once; as written, it faults iff one of its drains does. */
    method ProcessOnce(turns: seq<Turn>, reading: Reading)
      returns (requests: nat, rc: ServerError, client: Option<Name>, fault: bool)
      requires Valid()
      modifies this`sent, this`drained, this`views, this`owner, owner.Keys
      ensures fault <==> !OnceRuns(old(Model()), 0, turns, reading)
      ensures !fault ==>
                && Valid() && fresh(owner.Keys - old(owner.Keys))
                && Reported(Once(old(Model()), turns), requests, rc, client)
    {
      hide Drain, Arrive, OnceRuns;
      ghost var goal, runs := Once(Model(), turns), OnceRuns(Model(), 0, turns, reading);
      requests, rc, client, fault := 0, SUCCESS, None, false;
      var i, stop := 0, false;
      while i < |workers| && !stop
        invariant Valid() && fresh(owner.Keys - old(owner.Keys)) && i <= |workers|
        invariant if stop then runs && Reported(goal, requests, rc, client)
                  else
                    && goal == Later(requests, OnceFrom(Model(), i, turns))
                    && runs == OnceRuns(Model(), i, turns, reading) && rc == SUCCESS && client == None
        decreases !stop, |workers| - i
      {
        requests, rc, client, stop, fault := OnceTurn(i, turns, reading, requests, goal, runs);
        if fault {
          return;
        }
        i := i + 1;
      }
      OnceEnds(Model(), turns, reading);
    }

    /** octopipes_server_process_all; as written, it faults iff one of its passes does. */
    method ProcessAll(passes: seq<seq<Turn>>, reading: Reading)
      returns (requests: nat, rc: ServerError, client: Option<Name>, fault: bool)
      requires Valid()
      modifies this`sent, this`drained, this`views, this`owner, owner.Keys
      ensures fault <==> !AllRuns(old(Model()), passes, reading)
      ensures !fault ==>
                && Valid() && fresh(owner.Keys - old(owner.Keys))
                && Reported(All(old(Model()), passes), requests, rc, client)
    {
      hide Once, All, Backlog, OnceRuns, AllRuns;
      requests, rc, client, fault := 0, SUCCESS, None, false;
      var pass, session := 0, 1;
      assert passes[0..] == passes;
      ghost var goal, runs := All(Model(), passes), AllRuns(Model(), passes, reading);
      while session > 0
        invariant Valid() && fresh(owner.Keys - old(owner.Keys)) && pass <= |passes| && session >= 0 && rc == SUCCESS
        invariant session > 0 ==>
                    && goal == Later(requests, All(Model(), passes[pass..]))
                    && runs == AllRuns(Model(), passes[pass..], reading)
        invariant session == 0 ==> runs && Reported(goal, requests, rc, client) && !fault
        decreases session > 0, |passes| - pass, Backlog(views)
      {
        ghost var s := Model();
        var turns := if pass < |passes| then passes[pass] else [];
        AllUnfolds(s, passes[pass..], requests, reading);
        session, rc, client, fault := ProcessOnce(turns, reading);
        if fault || rc != SUCCESS {
          return;
        }
        requests := requests + session;
        if pass < |passes| {
          assert passes[pass..][0] == passes[pass] && passes[pass..][1..] == passes[pass + 1..];
          pass := pass + 1;
        }
      }
    }
  }

  /** The server as the main thread sees it when it answers the CAP: with the CAP inbox and its mutex. */
  class CapDesk {
    const server: OctopipesServer
    const inbox: Inbox
    var locked: bool

    /** The CAP inbox is not the inbox of a worker. */
    ghost predicate Valid()
      reads this, server, server.owner.Keys, inbox
    {
      && server.Valid() && inbox.Valid() && server.state == RUNNING
      && inbox !in server.owner && inbox.messages !in server.owner
    }

    ghost function State(): (c: CapState)
      reads this, server, inbox, inbox.messages
      requires inbox.Valid()
    {
      CapState(server.Model(), inbox.Contents(), locked)
    }

    constructor (s: OctopipesServer)
      requires s.Valid() && s.state == RUNNING
      ensures Valid() && server == s && !locked && State() == CapState(s.Model(), [], false)
    {
      server, locked := s, false;
      inbox := new Inbox();
    }

    /** octopipes_server_process_cap_once, unlocking on every way out. */
    method ProcessCapOnce(env: CapEnv) returns (requests: nat, rc: ServerError)
      requires Valid() && !locked
      modifies this, inbox, inbox.messages
      modifies server`workers, server`views, server`owner, server`state, server`replies
      ensures Valid() && !locked && (inbox.messages == old(inbox.messages) || fresh(inbox.messages))
      ensures Turned(State(), requests, rc) == CapOnce(old(State()), env, Documented)
    {
      hide HandleCap;
      locked := true;
      var head := inbox.Dequeue();
      requests, rc := 0, SUCCESS;
      if head.Some? {
        if head.value.message.Some? {
          rc := server.HandleCapMessage(head.value.message.value, env);
        }
        if rc == SUCCESS {
          requests := 1;
        }
      }
      locked := false;
    }

    /** What the CAP listener queues while it holds the mutex. */
    method CapListener(arrivals: seq<Entry>)
      requires Valid() && !locked
      modifies inbox
      ensures Valid() && (inbox.messages == old(inbox.messages) || fresh(inbox.messages))
      ensures State() == old(State()).(inbox := old(State()).inbox + arrivals)
    {
      for i := 0 to |arrivals|
        invariant Valid() && (inbox.messages == old(inbox.messages) || fresh(inbox.messages))
        invariant inbox.Contents() == old(inbox.Contents()) + arrivals[..i]
      {
        inbox.Push(arrivals[i].message, arrivals[i].error);
      }
      assert arrivals[..|arrivals|] == arrivals;
    }

    /** octopipes_server_process_cap_all, with the test of the inbox pointer the right way round. */
    method ProcessCapAll(passes: seq<CapPass>) returns (requests: nat, rc: ServerError)
      requires Valid() && !locked
      modifies this, inbox, inbox.messages
      modifies server`workers, server`views, server`owner, server`state, server`replies
      ensures Valid() && !locked
      ensures Turned(State(), requests, rc) == CapAll(old(State()), passes, Documented)
    {
      hide CapOnce, CapAll;
      requests, rc := 0, SUCCESS;
      var pass, session := 0, 1;
      assert passes[0..] == passes;
      ghost var goal := CapAll(State(), passes, Documented);
      while session > 0
        invariant Valid() && !locked && (inbox.messages == old(inbox.messages) || fresh(inbox.messages))
        invariant pass <= |passes| && session >= 0 && rc == SUCCESS
        invariant session > 0 ==> goal == LaterCap(requests, CapAll(State(), passes[pass..], Documented))
        invariant session == 0 ==> goal == Turned(State(), requests, SUCCESS)
        decreases session > 0, |passes| - pass, |inbox.Contents()|
      {
        var now := if pass < |passes| then passes[pass] else CALM;
        CapAllUnfolds(State(), passes[pass..], requests);
        CapListener(now.arrivals);
        session, rc := ProcessCapOnce(now.env);
        if rc != SUCCESS {
          return;
        }
        requests := requests + session;
        if pass < |passes| {
          assert passes[pass..][0] == passes[pass] && passes[pass..][1..] == passes[pass + 1..];
          pass := pass + 1;
        }
      }
    }
  }

  /** A CAP turn that continues after some requests were counted. */
  function LaterCap(requests: nat, t: CapTurn): (r: CapTurn) {
    if t.Turned? then t.(requests := requests + t.requests) else t
  }

  lemma CapAllUnfolds(c: CapState, passes: seq<CapPass>, requests: nat)
    requires !c.locked
    ensures var now := c.(inbox := c.inbox + PassAt(passes).arrivals);
            var t := CapOnce(now, PassAt(passes).env, Documented);
            && t.Turned? && t.requests <= 1 && (t.requests > 0 ==> |t.state.inbox| < |now.inbox|)
            && LaterCap(requests, CapAll(c, passes, Documented))
               == if t.error != SUCCESS then Turned(t.state, requests, t.error)
                  else if t.requests == 0 then Turned(t.state, requests, SUCCESS)
                  else LaterCap(requests + t.requests, CapAll(t.state, Rest(passes), Documented))
  {
    CapAllAnswers(c, passes);
  }

  lemma SameAfterTake(ws: seq<Worker>, i: nat, from: Name, m: Message, refused: Refusals)
    requires i < |ws| && ws[i].inbox != []
    ensures var vs := ws[i := ws[i].(inbox := ws[i].inbox[1..])];
            && Dispatch(ws, from, m, refused) == Dispatch(vs, from, m, refused)
            && (DispatchFaults(ws, m) <==> DispatchFaults(vs, m))
  {
    hide Dispatch, DispatchFaults;
    var vs := ws[i := ws[i].(inbox := ws[i].inbox[1..])];
    SameDispatch(ws, vs, from, m, refused);
    SameFaults(ws, vs, m);
  }

  lemma DrainEffect(s: Server, i: nat, refused: Refusals)
    requires i < |s.workers| && s.workers[i].inbox != []
    ensures var w, e := s.workers[i], s.workers[i].inbox[0];
            var t := s.(workers := s.workers[i := w.(inbox := w.inbox[1..])], drained := s.drained + [(w.id, e)]);
            Drain(s, i, refused)
            == if e.message.None? then Report(t, 1, e.error, None, true)
               else
                 var d := Dispatch(s.workers, w.id, e.message.value, refused);
                 var n := if d.error == SUCCESS then 1 else 0;
                 Report(t.(sent := s.sent + d.sent), n, d.error, if n == 1 then None else d.client, n == 0)
  {
  }

  /** A report that continues after some requests were counted. */
  function Later(requests: nat, r: Report): (t: Report) {
    r.(requests := requests + r.requests)
  }

  lemma FirstUnfolds(s: Server, i: nat, turns: seq<Turn>, reading: Reading)
    requires i < |s.workers|
    ensures var t := TurnAt(turns, i);
            var a := Arrive(s, t.arrivals);
            if a.workers[i].inbox != [] then
              && FirstFrom(s, i, turns) == Drain(a, i, t.refused)
              && FirstRuns(s, i, turns, reading) == !(reading == AsWritten && DrainFaults(a, i))
            else
              && FirstFrom(s, i, turns) == FirstFrom(a, i + 1, turns)
              && FirstRuns(s, i, turns, reading) == FirstRuns(a, i + 1, turns, reading)
  {
  }

  lemma FirstEnds(s: Server, turns: seq<Turn>, reading: Reading)
    ensures FirstRuns(s, |s.workers|, turns, reading)
  {
  }

  lemma OnceEnds(s: Server, turns: seq<Turn>, reading: Reading)
    ensures OnceRuns(s, |s.workers|, turns, reading)
  {
  }

  lemma OnceUnfolds(s: Server, i: nat, turns: seq<Turn>, requests: nat, reading: Reading)
    requires i < |s.workers|
    ensures var t := TurnAt(turns, i);
            var a := Arrive(s, t.arrivals);
            var d := Drain(a, i, t.refused);
            var faults := reading == AsWritten && DrainFaults(a, i);
            && OnceRuns(s, i, turns, reading) == (!faults && (d.stop || OnceRuns(d.server, i + 1, turns, reading)))
            && Later(requests, OnceFrom(s, i, turns))
               == if d.stop then Later(requests, d) else Later(requests + d.requests, OnceFrom(d.server, i + 1, turns))
  {
  }

  lemma AllUnfolds(s: Server, passes: seq<seq<Turn>>, requests: nat, reading: Reading)
    ensures var turns, rest := if passes == [] then [] else passes[0], if passes == [] then [] else passes[1..];
            var o := Once(s, turns);
            && AllRuns(s, passes, reading)
               == (OnceRuns(s, 0, turns, reading)
                   && (o.error != SUCCESS || o.requests == 0 || AllRuns(o.server, rest, reading)))
            && Later(requests, All(s, passes))
               == if o.error != SUCCESS then o.(requests := requests)
                  else if o.requests == 0 then Later(requests, o)
                  else Later(requests + o.requests, All(o.server, rest))
    ensures passes == [] ==> Backlog(Once(s, []).server.workers) + Once(s, []).requests <= Backlog(s.workers)
  {
    OnceBacklogQuiet(s);
  }

  /** A dispatch that had already sent something. */
  function After(out: seq<Sent>, d: Dispatched): (r: Dispatched) {
    d.(sent := out + d.sent)
  }

  lemma AfterNothing(d: Dispatched)
    ensures After([], d) == d
  {
    assert [] + d.sent == d.sent;
  }

  lemma AfterAll(out: seq<Sent>)
    ensures After(out, Dispatched([], SUCCESS, None)) == Dispatched(out, SUCCESS, None)
  {
    assert out + [] == out;
  }

  /** The fields of a worker that never change. */
  ghost predicate SameClient(w: ClientWorker, view: Worker) {
    view.id == w.id && view.subscriptions == w.subscriptions
  }

  /** One turn of the dispatch loop. */
  lemma DispatchStep(ws: seq<Worker>, i: nat, from: Name, m: Message, refused: Refusals, out: seq<Sent>)
    requires i < |ws|
    ensures var w := ws[i];
            After(out, DispatchTo(ws[i..], from, m, refused))
            == if !w.Matches(m.remote) then After(out, DispatchTo(ws[i + 1..], from, m, refused))
               else if SendError(w, m, refused) != SUCCESS then
                 Dispatched(out, SendError(w, m, refused), Some(w.id))
               else After(out + [Sent(from, w.id, m)], DispatchTo(ws[i + 1..], from, m, refused))
    ensures ws[i].Matches(m.remote) && SendFaults(m) && m.remote != [] ==> DispatchFaults(ws, m)
  {
    hide SendError, CStr;
    assert ws[i..][0] == ws[i] && ws[i..][1..] == ws[i + 1..] && ws[i] in ws;
    assert out + [] == out;
    Assoc(out, [Sent(from, ws[i].id, m)], DispatchTo(ws[i + 1..], from, m, refused).sent);
  }

  lemma DispatchEnds(ws: seq<Worker>, from: Name, m: Message, refused: Refusals)
    ensures DispatchTo(ws[|ws|..], from, m, refused) == Dispatched([], SUCCESS, None)
    ensures (forall j :: 0 <= j < |ws| ==> !ws[j].Matches(m.remote)) ==> !DispatchFaults(ws, m)
    ensures !SendFaults(m) || m.remote == [] ==> !DispatchFaults(ws, m)
  {
  }

  lemma FirstIndex(ws: seq<Worker>, id: Name, i: nat)
    requires i <= |ws| && (forall j :: 0 <= j < i ==> ws[j].id != id) && (i < |ws| ==> ws[i].id == id)
    ensures IndexOf(ws, id) == i
  {
    if i < |ws| {
      assert ws[i] in ws;
    }
  }
}
