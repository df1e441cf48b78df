/** The three drain policies: they are runs, process_all is round robin, process_once bounds the wait. */
module Drains {
  import opened Bytes
  import opened Types
  import opened Broker
  import opened Control
  import opened Routing

  // ----- Every drain call is a run of steps -----

  function Pushes(arrivals: seq<(Name, Entry)>): (steps: seq<Step>) {
    seq(|arrivals|, i requires 0 <= i < |arrivals| => Pushing(arrivals[i].0, arrivals[i].1))
  }

  lemma {:induction false} ArriveIsRun(s: Server, arrivals: seq<(Name, Entry)>)
    ensures Arrive(s, arrivals) == Run(s, Pushes(arrivals))
    decreases |arrivals|
  {
    if arrivals != [] {
      assert Pushes(arrivals)[1..] == Pushes(arrivals[1..]);
      ArriveIsRun(Push(s, arrivals[0].0, arrivals[0].1), arrivals[1..]);
    }
  }

  function TurnSteps(i: nat, t: Turn): seq<Step> {
    Pushes(t.arrivals) + [Draining(i, t.refused)]
  }

  lemma TurnIsRun(s: Server, i: nat, t: Turn)
    requires i < |s.workers|
    ensures Drain(Arrive(s, t.arrivals), i, t.refused).server == Run(s, TurnSteps(i, t))
  {
    ArriveIsRun(s, t.arrivals);
    RunConcat(s, Pushes(t.arrivals), [Draining(i, t.refused)]);
    var a := Arrive(s, t.arrivals);
    assert Run(StepTo(a, Draining(i, t.refused)), []) == Drain(a, i, t.refused).server;
    assert [Draining(i, t.refused)][1..] == [];
  }

  function OnceSteps(s: Server, i: nat, turns: seq<Turn>): (steps: seq<Step>)
    requires i <= |s.workers|
    decreases |s.workers| - i
  {
    if i == |s.workers| then []
    else
      var t := TurnAt(turns, i);
      var d := Drain(Arrive(s, t.arrivals), i, t.refused);
      TurnSteps(i, t) + if d.stop then [] else OnceSteps(d.server, i + 1, turns)
  }

  lemma {:induction false} OnceIsRun(s: Server, i: nat, turns: seq<Turn>)
    requires i <= |s.workers|
    ensures OnceFrom(s, i, turns).server == Run(s, OnceSteps(s, i, turns))
    decreases |s.workers| - i
  {
    if i < |s.workers| {
      var t := TurnAt(turns, i);
      var d := Drain(Arrive(s, t.arrivals), i, t.refused);
      TurnIsRun(s, i, t);
      if d.stop {
        assert TurnSteps(i, t) + [] == TurnSteps(i, t);
      } else {
        OnceIsRun(d.server, i + 1, turns);
        RunConcat(s, TurnSteps(i, t), OnceSteps(d.server, i + 1, turns));
      }
    }
  }

  function FirstSteps(s: Server, i: nat, turns: seq<Turn>): (steps: seq<Step>)
    requires i <= |s.workers|
    decreases |s.workers| - i
  {
    if i == |s.workers| then []
    else
      var t := TurnAt(turns, i);
      var s' := Arrive(s, t.arrivals);
      if s'.workers[i].inbox != [] then TurnSteps(i, t) else Pushes(t.arrivals) + FirstSteps(s', i + 1, turns)
  }

  lemma {:induction false} FirstIsRun(s: Server, i: nat, turns: seq<Turn>)
    requires i <= |s.workers|
    ensures FirstFrom(s, i, turns).server == Run(s, FirstSteps(s, i, turns))
    decreases |s.workers| - i
  {
    if i < |s.workers| {
      var t := TurnAt(turns, i);
      var s' := Arrive(s, t.arrivals);
      TurnIsRun(s, i, t);
      ArriveIsRun(s, t.arrivals);
      if s'.workers[i].inbox == [] {
        FirstIsRun(s', i + 1, turns);
        RunConcat(s, Pushes(t.arrivals), FirstSteps(s', i + 1, turns));
      }
    }
  }

  /** The passes of process_all one after the other. */
  function AllSteps(s: Server, passes: seq<seq<Turn>>): (steps: seq<Step>)
    decreases |passes|, Backlog(s.workers)
  {
    var turns := if passes == [] then [] else passes[0];
    var o := Once(s, turns);
    OnceSteps(s, 0, turns) +
    if o.error != SUCCESS || o.requests == 0 then []
    else
      OnceBacklogQuiet(s);
      AllSteps(o.server, if passes == [] then [] else passes[1..])
  }

  lemma {:induction false} AllIsRun(s: Server, passes: seq<seq<Turn>>)
    ensures All(s, passes).server == Run(s, AllSteps(s, passes))
    decreases |passes|, Backlog(s.workers)
  {
    hide OnceFrom, OnceSteps, Backlog;
    var turns := if passes == [] then [] else passes[0];
    var o := Once(s, turns);
    OnceIsRun(s, 0, turns);
    if o.error != SUCCESS || o.requests == 0 {
      assert OnceSteps(s, 0, turns) + [] == OnceSteps(s, 0, turns);
    } else {
      OnceBacklogQuiet(s);
      var rest := if passes == [] then [] else passes[1..];
      AllIsRun(o.server, rest);
      RunConcat(s, OnceSteps(s, 0, turns), AllSteps(o.server, rest));
    }
  }

  /** What arrives in the turns from i up to j. */
  function Arrivals(turns: seq<Turn>, i: nat, j: nat): (arrivals: seq<(Name, Entry)>)
    requires i <= j
    decreases j - i
  {
    if i == j then [] else TurnAt(turns, i).arrivals + Arrivals(turns, i + 1, j)
  }

  lemma {:induction false} ArriveConcat(s: Server, a: seq<(Name, Entry)>, b: seq<(Name, Entry)>)
    ensures Arrive(s, a + b) == Arrive(Arrive(s, a), b)
    decreases |a|
  {
    hide Push;
    if a == [] {
      assert a + b == b;
    } else {
      assert (a + b)[1..] == a[1..] + b;
      ArriveConcat(Push(s, a[0].0, a[0].1), a[1..], b);
    }
  }

  /** At the turn of inbox j of a call that started with inbox i, after what arrived by then. */
  function ByTurn(s: Server, turns: seq<Turn>, i: nat, j: nat): (t: Server)
    requires i <= j
    ensures |t.workers| == |s.workers|
  {
    Arrive(s, Arrivals(turns, i, j + 1))
  }

  /** The first inbox that has something when its turn comes, or the number of workers. */
  predicate FirstBusy(s: Server, turns: seq<Turn>, i: nat, j: nat) {
    && i <= j <= |s.workers| && (j < |s.workers| ==> ByTurn(s, turns, i, j).workers[j].inbox != [])
    && forall k :: i <= k < j ==> ByTurn(s, turns, i, k).workers[k].inbox == []
  }

  /** process_first is one drain of the first inbox that is not empty at its turn; without one it only lets queue. */
  lemma {:induction false} FirstTakesOne(s: Server, i: nat, turns: seq<Turn>) returns (j: nat)
    requires i <= |s.workers|
    ensures FirstBusy(s, turns, i, j)
    ensures FirstFrom(s, i, turns)
         == if j < |s.workers| then Drain(ByTurn(s, turns, i, j), j, TurnAt(turns, j).refused)
            else Report(Arrive(s, Arrivals(turns, i, j)), 0, SUCCESS, None, false)
    decreases |s.workers| - i
  {
    hide Drain, Arrive;
    j := i;
    ArriveNothing(s);
    if i < |s.workers| {
      var a := Arrive(s, TurnAt(turns, i).arrivals);
      assert Arrivals(turns, i, i + 1) == TurnAt(turns, i).arrivals + [];
      assert TurnAt(turns, i).arrivals + [] == TurnAt(turns, i).arrivals;
      if a.workers[i].inbox == [] {
        j := FirstTakesOne(a, i + 1, turns);
        forall k | i + 1 <= k ensures ByTurn(s, turns, i, k) == ByTurn(a, turns, i + 1, k) {
          ArriveConcat(s, TurnAt(turns, i).arrivals, Arrivals(turns, i + 1, k + 1));
        }
        ArriveConcat(s, TurnAt(turns, i).arrivals, Arrivals(turns, i + 1, j));
      }
    }
  }

  lemma ArriveNothing(s: Server)
    ensures Arrive(s, []) == s
  {
  }

  // ----- Entries that can be dispatched -----

  predicate Sendable(e: Entry) {
    e.message.Some? && e.message.value.remote != []
  }

  predicate AllSendable(ws: seq<Worker>) {
    forall i, k :: 0 <= i < |ws| && 0 <= k < |ws[i].inbox| ==> Sendable(ws[i].inbox[k])
  }

  /** The entry can be dispatched to all its subscribers. */
  predicate Goes(ws: seq<Worker>, e: Entry, refused: Refusals) {
    Sendable(e) && Unhindered(ws, |ws|, e.message.value, refused)
  }

  /** From position i on, the head of every inbox can be dispatched in its turn. */
  predicate HeadsGo(ws: seq<Worker>, i: nat, turns: seq<Turn>) {
    forall j :: i <= j < |ws| && ws[j].inbox != [] ==> Goes(ws, ws[j].inbox[0], TurnAt(turns, j).refused)
  }

  /** Who refuses in turn i of pass k. */
  function RefusedAt(passes: seq<seq<Turn>>, k: nat, i: nat): Refusals {
    TurnAt(if k < |passes| then passes[k] else [], i).refused
  }

  /** Entry k of every inbox can be dispatched in its turn of pass k. */
  predicate AllGo(ws: seq<Worker>, passes: seq<seq<Turn>>) {
    forall i, k :: 0 <= i < |ws| && 0 <= k < |ws[i].inbox| ==> Goes(ws, ws[i].inbox[k], RefusedAt(passes, k, i))
  }

  predicate NoArrivals(turns: seq<Turn>) {
    forall t :: t in turns ==> t.arrivals == []
  }

  predicate NoneArrive(passes: seq<seq<Turn>>) {
    forall turns :: turns in passes ==> NoArrivals(turns)
  }

  lemma GoesSame(ws: seq<Worker>, vs: seq<Worker>, e: Entry, refused: Refusals)
    requires SameWorkers(ws, vs)
    ensures Goes(ws, e, refused) <==> Goes(vs, e, refused)
  {
    forall i | 0 <= i < |ws| ensures ws[i].id == vs[i].id && ws[i].subscriptions == vs[i].subscriptions {
      assert ws[i].(inbox := []).id == vs[i].(inbox := []).id;
      assert ws[i].(inbox := []).subscriptions == vs[i].(inbox := []).subscriptions;
    }
  }

  /** When nobody refuses, having a remote is enough. */
  lemma UnrefusedGoes(ws: seq<Worker>)
    requires EntriesOk(ws)
    ensures AllGo(ws, []) <==> AllSendable(ws)
  {
    forall i, k | 0 <= i < |ws| && 0 <= k < |ws[i].inbox|
      ensures Goes(ws, ws[i].inbox[k], RefusedAt([], k, i)) <==> Sendable(ws[i].inbox[k])
    {
      assert ws[i].inbox[k].Valid();
    }
  }

  /** A dispatch that nobody hinders is the one that nobody could hinder. */
  lemma {:induction false} UnhinderedDispatch(ws: seq<Worker>, from: Name, m: Message, refused: Refusals)
    requires DispatchTo(ws, from, m, refused).error == SUCCESS
    ensures DispatchTo(ws, from, m, refused) == DispatchTo(ws, from, m, map[])
  {
    if ws != [] {
      UnhinderedDispatch(ws[1..], from, m, refused);
    }
  }

  // ----- Round robin -----

  function Heads(ws: seq<Worker>): (h: seq<(Name, Entry)>) {
    if ws == [] then [] else (if ws[0].inbox != [] then [(ws[0].id, ws[0].inbox[0])] else []) + Heads(ws[1..])
  }

  function Tails(ws: seq<Worker>): (t: seq<Worker>)
    ensures |t| == |ws|
    ensures forall i :: 0 <= i < |ws| ==> t[i] == ws[i].(inbox := ws[i].inbox[Min1(ws[i].inbox)..])
  {
    if ws == [] then [] else [ws[0].(inbox := ws[0].inbox[Min1(ws[0].inbox)..])] + Tails(ws[1..])
  }

  lemma {:induction false} HeadsTails(ws: seq<Worker>)
    ensures Backlog(Tails(ws)) == Backlog(ws) - |Heads(ws)|
    ensures Heads(ws) == [] <==> Backlog(ws) == 0
  {
    if ws != [] {
      HeadsTails(ws[1..]);
      assert Tails(ws)[1..] == Tails(ws[1..]);
    }
  }

  /** First the head of every inbox in registration order, then the second entries, and so on. */
  function RoundRobin(ws: seq<Worker>): (order: seq<(Name, Entry)>)
    ensures |order| == Backlog(ws)
    decreases Backlog(ws)
  {
    HeadsTails(ws);
    if Heads(ws) == [] then [] else Heads(ws) + RoundRobin(Tails(ws))
  }

  /** How many entries come before the k-th one of inbox i. */
  function Rank(ws: seq<Worker>, i: nat, k: nat): (n: nat) {
    if ws == [] then 0
    else
      var before := if i > 0 then k + 1 else k;
      (if |ws[0].inbox| < before then |ws[0].inbox| else before) + Rank(ws[1..], if i > 0 then i - 1 else 0, k)
  }

  lemma {:induction false} RankOfHead(ws: seq<Worker>, i: nat)
    requires i < |ws| && ws[i].inbox != []
    ensures Rank(ws, i, 0) < |Heads(ws)| && Heads(ws)[Rank(ws, i, 0)] == (ws[i].id, ws[i].inbox[0])
  {
    if i > 0 {
      RankOfHead(ws[1..], i - 1);
    } else {
      RankZero(ws[1..]);
    }
  }

  lemma {:induction false} RankZero(ws: seq<Worker>)
    ensures Rank(ws, 0, 0) == 0
  {
    if ws != [] {
      RankZero(ws[1..]);
    }
  }

  lemma {:induction false} RankOfLater(ws: seq<Worker>, i: nat, k: nat)
    requires k > 0
    ensures Rank(ws, i, k) == |Heads(ws)| + Rank(Tails(ws), i, k - 1)
  {
    if ws != [] {
      RankOfLater(ws[1..], if i > 0 then i - 1 else 0, k);
      assert Tails(ws)[1..] == Tails(ws[1..]);
    }
  }

  /** The order is the transposition of the inboxes: entry k of inbox i sits at its rank. */
  lemma {:induction false} RoundRobinTransposes(ws: seq<Worker>, i: nat, k: nat)
    requires i < |ws| && k < |ws[i].inbox|
    ensures Rank(ws, i, k) < |RoundRobin(ws)| && RoundRobin(ws)[Rank(ws, i, k)] == (ws[i].id, ws[i].inbox[k])
    decreases k
  {
    hide RoundRobin, Rank, Heads;
    if k == 0 {
      FirstTransposed(ws, i);
    } else {
      TailEntry(ws, i, k);
      RoundRobinTransposes(Tails(ws), i, k - 1);
      LaterTransposed(ws, i, k);
    }
  }

  lemma TailEntry(ws: seq<Worker>, i: nat, k: nat)
    requires i < |ws| && 0 < k < |ws[i].inbox|
    ensures Tails(ws)[i].id == ws[i].id
    ensures k - 1 < |Tails(ws)[i].inbox| && Tails(ws)[i].inbox[k - 1] == ws[i].inbox[k]
  {
  }

  lemma FirstTransposed(ws: seq<Worker>, i: nat)
    requires i < |ws| && ws[i].inbox != []
    ensures Rank(ws, i, 0) < |RoundRobin(ws)| && RoundRobin(ws)[Rank(ws, i, 0)] == (ws[i].id, ws[i].inbox[0])
  {
    RoundRobinUnfolds(ws, i);
    RankOfHead(ws, i);
  }

  lemma LaterTransposed(ws: seq<Worker>, i: nat, k: nat)
    requires i < |ws| && ws[i].inbox != [] && k > 0
    requires Rank(Tails(ws), i, k - 1) < |RoundRobin(Tails(ws))|
    ensures Rank(ws, i, k) < |RoundRobin(ws)|
    ensures RoundRobin(ws)[Rank(ws, i, k)] == RoundRobin(Tails(ws))[Rank(Tails(ws), i, k - 1)]
  {
    RoundRobinUnfolds(ws, i);
    RankOfLater(ws, i, k);
    Shifted(Heads(ws), RoundRobin(Tails(ws)), Rank(Tails(ws), i, k - 1));
  }

  lemma Shifted<T>(a: seq<T>, b: seq<T>, n: nat)
    requires n < |b|
    ensures (a + b)[|a| + n] == b[n]
  {
  }

  lemma RoundRobinUnfolds(ws: seq<Worker>, i: nat)
    requires i < |ws| && ws[i].inbox != []
    ensures RoundRobin(ws) == Heads(ws) + RoundRobin(Tails(ws))
  {
    HeadsTails(ws);
    BacklogPositive(ws, i);
  }

  lemma {:induction false} BacklogPositive(ws: seq<Worker>, i: nat)
    requires i < |ws|
    ensures Backlog(ws) >= |ws[i].inbox|
  {
    if i > 0 {
      BacklogPositive(ws[1..], i - 1);
    }
  }

  /** What entries taken in this order make the server send when nobody refuses. */
  function Sends(ws: seq<Worker>, order: seq<(Name, Entry)>): (sent: seq<Sent>) {
    if order == [] then []
    else
      (if order[0].1.message.None? then [] else Dispatch(ws, order[0].0, order[0].1.message.value, map[]).sent)
      + Sends(ws, order[1..])
  }

  lemma {:induction false} SendsConcat(ws: seq<Worker>, a: seq<(Name, Entry)>, b: seq<(Name, Entry)>)
    ensures Sends(ws, a + b) == Sends(ws, a) + Sends(ws, b)
  {
    hide Dispatch;
    if a == [] {
      assert a + b == b;
    } else {
      assert (a + b)[1..] == a[1..] + b;
      SendsConcat(ws, a[1..], b);
    }
  }

  lemma {:induction false} SendsSame(ws: seq<Worker>, vs: seq<Worker>, order: seq<(Name, Entry)>)
    requires SameWorkers(ws, vs)
    ensures Sends(ws, order) == Sends(vs, order)
  {
    hide Dispatch;
    if order != [] {
      SendsSame(ws, vs, order[1..]);
      if order[0].1.message.Some? {
        SameDispatch(ws, vs, order[0].0, order[0].1.message.value, map[]);
      }
    }
  }

  /** A pass without arrivals takes every head in order, or fails on the first one that cannot be dispatched. */
  lemma {:induction false} QuietPass(s: Server, i: nat, turns: seq<Turn>)
    requires i <= |s.workers| && EntriesOk(s.workers) && NoArrivals(turns)
    ensures var r, ws := OnceFrom(s, i, turns), s.workers;
            if HeadsGo(ws, i, turns) then
              && !r.stop && r.error == SUCCESS && r.requests == |Heads(ws[i..])|
              && r.server.workers == ws[..i] + Tails(ws[i..]) && r.server.drained == s.drained + Heads(ws[i..])
              && r.server.sent == s.sent + Sends(ws, Heads(ws[i..]))
            else r.error != SUCCESS
    decreases |s.workers| - i
  {
    hide Drain, Heads, Tails, Sends, Goes, EntriesOk;
    var ws := s.workers;
    if i == |ws| {
      assert ws[i..] == [] && ws[..i] == ws;
      NothingLeft(s);
    } else {
      var t := TurnAt(turns, i);
      assert t.arrivals == [];
      ArriveNothing(s);
      var d := Drain(s, i, t.refused);
      HeadDrain(s, i, t.refused);
      if !d.stop {
        HeadsGoLater(ws, i, turns);
        assert d.server.workers[i + 1..] == ws[i + 1..];
        QuietPass(d.server, i + 1, turns);
        PassAssembly(s, i, d.server);
      }
    }
  }

  lemma NothingLeft(s: Server)
    ensures Heads([]) == [] && Tails([]) == [] && Sends(s.workers, []) == []
    ensures s.workers + [] == s.workers && s.drained + [] == s.drained && s.sent + [] == s.sent
  {
  }

  /** Draining one inbox does not change whether the heads of the later ones go. */
  lemma HeadsGoLater(ws: seq<Worker>, i: nat, turns: seq<Turn>)
    requires i < |ws|
    ensures var vs := ws[i := Tails([ws[i]])[0]];
            HeadsGo(ws, i, turns) <==>
            (ws[i].inbox != [] ==> Goes(ws, ws[i].inbox[0], TurnAt(turns, i).refused)) && HeadsGo(vs, i + 1, turns)
  {
    hide Goes;
    var vs := ws[i := Tails([ws[i]])[0]];
    forall j | i < j < |ws| && ws[j].inbox != []
      ensures Goes(ws, ws[j].inbox[0], TurnAt(turns, j).refused)
              <==> Goes(vs, vs[j].inbox[0], TurnAt(turns, j).refused)
    {
      GoesSame(ws, vs, ws[j].inbox[0], TurnAt(turns, j).refused);
    }
  }

  lemma PassAssembly(s: Server, i: nat, t: Server)
    requires i < |s.workers|
    requires t.workers == s.workers[i := Tails([s.workers[i]])[0]] && t.drained == s.drained + Heads([s.workers[i]])
    requires t.sent == s.sent + Sends(s.workers, Heads([s.workers[i]]))
    ensures var ws := s.workers;
            && t.sent + Sends(t.workers, Heads(t.workers[i + 1..])) == s.sent + Sends(ws, Heads(ws[i..]))
            && t.workers[..i + 1] + Tails(t.workers[i + 1..]) == ws[..i] + Tails(ws[i..])
            && t.drained + Heads(t.workers[i + 1..]) == s.drained + Heads(ws[i..])
            && |Heads(ws[i..])| == Min1(ws[i].inbox) + |Heads(ws[i + 1..])|
  {
    var ws := s.workers;
    UpdateSplit(ws, i, t.workers[i]);
    HeadsTailsCons(ws[i], ws[i + 1..]);
    Assoc(ws[..i], [t.workers[i]], Tails(ws[i + 1..]));
    Assoc(s.drained, Heads([ws[i]]), Heads(ws[i + 1..]));
    SendsSame(ws, t.workers, Heads(ws[i + 1..]));
    SendsConcat(ws, Heads([ws[i]]), Heads(ws[i + 1..]));
    Assoc(s.sent, Sends(ws, Heads([ws[i]])), Sends(ws, Heads(ws[i + 1..])));
  }

  lemma UpdateSplit<T>(s: seq<T>, i: nat, x: T)
    requires i < |s|
    ensures s[i := x][..i + 1] == s[..i] + [x] && s[i := x][i + 1..] == s[i + 1..]
    ensures s[i..] == [s[i]] + s[i + 1..]
  {
  }

  lemma HeadsTailsCons(w: Worker, ws: seq<Worker>)
    ensures Heads([w] + ws) == Heads([w]) + Heads(ws) && |Heads([w])| == Min1(w.inbox)
    ensures Tails([w] + ws) == [Tails([w])[0]] + Tails(ws)
  {
    assert ([w] + ws)[1..] == ws && [w][1..] == [];
  }

  lemma SendsOne(ws: seq<Worker>, id: Name, e: Entry, refused: Refusals)
    requires e.message.Some? && Dispatch(ws, id, e.message.value, refused).error == SUCCESS
    ensures Sends(ws, [(id, e)]) == Dispatch(ws, id, e.message.value, refused).sent
  {
    hide DispatchTo;
    assert [(id, e)][1..] == [];
    UnhinderedDispatch(ws, id, e.message.value, refused);
  }

  lemma HeadDrain(s: Server, i: nat, refused: Refusals)
    requires i < |s.workers| && EntriesOk(s.workers)
    ensures var w, d := s.workers[i], Drain(s, i, refused);
            && EntriesOk(d.server.workers)
            && (d.stop <==> w.inbox != [] && !Goes(s.workers, w.inbox[0], refused)) && (d.stop <==> d.error != SUCCESS)
            && (!d.stop ==> d.requests == Min1(w.inbox)
                            && d.server.drained == s.drained + Heads([w])
                            && d.server.sent == s.sent + Sends(s.workers, Heads([w]))
                            && d.server.workers == s.workers[i := Tails([w])[0]])
  {
    hide Dispatch;
    var w := s.workers[i];
    assert [w][1..] == [];
    if w.inbox != [] {
      assert w.inbox[0].Valid();
      if w.inbox[0].message.Some? {
        DispatchReports(s.workers, w.id, w.inbox[0].message.value, refused);
        if Dispatch(s.workers, w.id, w.inbox[0].message.value, refused).error == SUCCESS {
          SendsOne(s.workers, w.id, w.inbox[0], refused);
        }
      }
    }
  }

  /** Everything was taken and dispatched in round-robin order, and counted. */
  predicate TookAll(s: Server, r: Report) {
    && r.error == SUCCESS && Backlog(r.server.workers) == 0 && r.requests == Backlog(s.workers)
    && r.server.drained == s.drained + RoundRobin(s.workers)
    && r.server.sent == s.sent + Sends(s.workers, RoundRobin(s.workers))
  }

  /**
   octopipes_server_process_all with nothing arriving, whoever refuses: it succeeds iff every queued entry can be
   dispatched in its pass, and then it has emptied every inbox in round-robin order and counted exactly the entries
   that were queued.
   */
  lemma {:induction false} ProcessAllIsRoundRobin(s: Server, passes: seq<seq<Turn>>)
    requires EntriesOk(s.workers) && NoneArrive(passes)
    ensures if AllGo(s.workers, passes) then TookAll(s, All(s, passes)) else All(s, passes).error != SUCCESS
    decreases |passes|, Backlog(s.workers)
  {
    hide Heads, Tails, Backlog, Sends, Once, AllGo, HeadsGo, EntriesOk, NoArrivals;
    var turns, rest := if passes == [] then [] else passes[0], if passes == [] then [] else passes[1..];
    var o := Once(s, turns);
    NoneArriveFirst(passes);
    WholeQuietPass(s, turns);
    AllGoSplit(s.workers, passes);
    if o.error == SUCCESS {
      HeadsTails(s.workers);
      if o.requests > 0 {
        OnceBacklogQuiet(s);
        ProcessAllIsRoundRobin(o.server, rest);
        LaterPasses(s, o, All(o.server, rest));
      } else {
        LastPass(s, o, passes);
      }
    }
  }

  /** Without refusals it succeeds iff every queued entry is a message with a remote. */
  lemma ProcessAllUnrefused(s: Server)
    requires EntriesOk(s.workers)
    ensures if AllSendable(s.workers) then TookAll(s, All(s, [])) else All(s, []).error != SUCCESS
  {
    ProcessAllIsRoundRobin(s, []);
    UnrefusedGoes(s.workers);
  }

  lemma NoneArriveFirst(passes: seq<seq<Turn>>)
    requires NoneArrive(passes)
    ensures NoArrivals(if passes == [] then [] else passes[0])
    ensures NoneArrive(if passes == [] then [] else passes[1..])
  {
    hide NoArrivals;
    if passes != [] {
      assert passes[0] in passes;
    } else {
      NoTurns();
    }
  }

  lemma NoTurns()
    ensures NoArrivals([])
  {
  }

  lemma LaterPasses(s: Server, o: Report, r: Report)
    requires o.requests == |Heads(s.workers)| > 0 && o.error == SUCCESS
    requires o.server.workers == Tails(s.workers) && o.server.drained == s.drained + Heads(s.workers)
    requires o.server.sent == s.sent + Sends(s.workers, Heads(s.workers))
    ensures TookAll(o.server, r) ==> TookAll(s, r.(requests := o.requests + r.requests))
  {
    hide Heads, Tails, Backlog;
    HeadsTails(s.workers);
    Assoc(s.drained, Heads(s.workers), RoundRobin(Tails(s.workers)));
    SendsSame(s.workers, Tails(s.workers), RoundRobin(Tails(s.workers)));
    SendsConcat(s.workers, Heads(s.workers), RoundRobin(Tails(s.workers)));
    Assoc(s.sent, Sends(s.workers, Heads(s.workers)), Sends(s.workers, RoundRobin(Tails(s.workers))));
  }

  lemma LastPass(s: Server, o: Report, passes: seq<seq<Turn>>)
    requires o.requests == |Heads(s.workers)| == 0 && o.error == SUCCESS
    requires o.server.workers == Tails(s.workers) && o.server.drained == s.drained + Heads(s.workers)
    requires o.server.sent == s.sent + Sends(s.workers, Heads(s.workers))
    ensures TookAll(s, o) && AllGo(s.workers, passes)
  {
    HeadsTails(s.workers);
    NothingQueued(s.workers);
  }

  lemma WholeQuietPass(s: Server, turns: seq<Turn>)
    requires EntriesOk(s.workers) && NoArrivals(turns)
    ensures var o, ws := Once(s, turns), s.workers;
            if HeadsGo(ws, 0, turns) then
              && o.error == SUCCESS && o.requests == |Heads(ws)|
              && o.server.workers == Tails(ws) && o.server.drained == s.drained + Heads(ws)
              && o.server.sent == s.sent + Sends(ws, Heads(ws))
            else o.error != SUCCESS
  {
    hide HeadsGo, Heads, Tails, Sends;
    QuietPass(s, 0, turns);
    assert s.workers[0..] == s.workers && s.workers[..0] + Tails(s.workers) == Tails(s.workers);
  }

  lemma AllGoSplit(ws: seq<Worker>, passes: seq<seq<Turn>>)
    requires EntriesOk(ws)
    ensures EntriesOk(Tails(ws))
    ensures var turns, rest := if passes == [] then [] else passes[0], if passes == [] then [] else passes[1..];
            AllGo(ws, passes) <==> HeadsGo(ws, 0, turns) && AllGo(Tails(ws), rest)
  {
    hide Goes;
    var turns, rest := if passes == [] then [] else passes[0], if passes == [] then [] else passes[1..];
    var ts := Tails(ws);
    forall i, k | 0 <= i < |ws| && 0 <= k < |ts[i].inbox|
      ensures Goes(ts, ts[i].inbox[k], RefusedAt(rest, k, i))
              <==> Goes(ws, ws[i].inbox[k + 1], RefusedAt(passes, k + 1, i))
    {
      GoesSame(ws, ts, ws[i].inbox[k + 1], RefusedAt(rest, k, i));
    }
    assert forall i :: RefusedAt(passes, 0, i) == TurnAt(turns, i).refused;
    if HeadsGo(ws, 0, turns) && AllGo(ts, rest) {
      forall i, k | 0 <= i < |ws| && 0 <= k < |ws[i].inbox| ensures Goes(ws, ws[i].inbox[k], RefusedAt(passes, k, i)) {
        if k > 0 {
          assert Goes(ts, ts[i].inbox[k - 1], RefusedAt(rest, k - 1, i));
        }
      }
    }
    if AllGo(ws, passes) {
      forall i | 0 <= i < |ws| && ws[i].inbox != [] ensures Goes(ws, ws[i].inbox[0], TurnAt(turns, i).refused) {
        assert Goes(ws, ws[i].inbox[0], RefusedAt(passes, 0, i));
      }
    }
  }

  lemma NothingQueued(ws: seq<Worker>)
    requires Backlog(ws) == 0
    ensures forall i :: 0 <= i < |ws| ==> ws[i].inbox == []
  {
    forall i | 0 <= i < |ws| ensures ws[i].inbox == [] {
      BacklogPositive(ws, i);
    }
  }

  /** Position from i on of the first inbox whose head cannot be dispatched in its turn, or |ws|. */
  function FirstStuck(ws: seq<Worker>, i: nat, turns: seq<Turn>): (j: nat)
    requires i <= |ws|
    ensures i <= j <= |ws|
    ensures j < |ws| ==> ws[j].inbox != [] && !Goes(ws, ws[j].inbox[0], TurnAt(turns, j).refused)
    ensures forall k :: i <= k < j && ws[k].inbox != [] ==> Goes(ws, ws[k].inbox[0], TurnAt(turns, k).refused)
    decreases |ws| - i
  {
    if i == |ws| || (ws[i].inbox != [] && !Goes(ws, ws[i].inbox[0], TurnAt(turns, i).refused)) then i
    else FirstStuck(ws, i + 1, turns)
  }

  /**
   A pass that fails reports what the drain of the first inbox that is stuck reports, and counts the heads that were
   dispatched before it.
   */
  lemma {:induction false} FailedPass(s: Server, i: nat, turns: seq<Turn>)
    requires i <= |s.workers| && EntriesOk(s.workers) && NoArrivals(turns) && !HeadsGo(s.workers, i, turns)
    ensures var r, ws, j := OnceFrom(s, i, turns), s.workers, FirstStuck(s.workers, i, turns);
            j < |ws| &&
            var d := Drain(s, j, TurnAt(turns, j).refused);
            r.stop && r.error == d.error && r.client == d.client && r.requests == |Heads(ws[i..j])| + d.requests
    decreases |s.workers| - i
  {
    hide Drain, Heads, Goes, EntriesOk;
    var ws, t := s.workers, TurnAt(turns, i);
    if i < |ws| {
      assert t.arrivals == [];
      ArriveNothing(s);
      HeadDrain(s, i, t.refused);
      var d, j := Drain(s, i, t.refused), FirstStuck(ws, i, turns);
      if d.stop {
        assert ws[i..i] == [];
        NothingLeft(s);
      } else {
        HeadsGoLater(ws, i, turns);
        FailedPass(d.server, i + 1, turns);
        StuckLater(s, i, turns);
        assert ws[i..j] == [ws[i]] + ws[i + 1..j];
        HeadsTailsCons(ws[i], ws[i + 1..j]);
        assert d.server.workers[i + 1..j] == ws[i + 1..j];
      }
    }
  }

  /** The inbox that is stuck, and what its drain reports, are the same after an earlier drain. */
  lemma StuckLater(s: Server, i: nat, turns: seq<Turn>)
    requires i < |s.workers| && EntriesOk(s.workers)
    requires !Drain(s, i, TurnAt(turns, i).refused).stop && FirstStuck(s.workers, i, turns) < |s.workers|
    ensures var t, j := Drain(s, i, TurnAt(turns, i).refused).server, FirstStuck(s.workers, i, turns);
            && j > i && FirstStuck(t.workers, i + 1, turns) == j
            && var d, e := Drain(t, j, TurnAt(turns, j).refused), Drain(s, j, TurnAt(turns, j).refused);
               d.error == e.error && d.client == e.client && d.requests == e.requests
  {
    hide Goes, Dispatch;
    HeadDrain(s, i, TurnAt(turns, i).refused);
    var t, j := Drain(s, i, TurnAt(turns, i).refused).server, FirstStuck(s.workers, i, turns);
    assert SameWorkers(s.workers, t.workers);
    StuckSame(s.workers, t.workers, i + 1, turns);
    assert t.workers[j] == s.workers[j];
    var e := s.workers[j].inbox[0];
    if e.message.Some? {
      SameDispatch(s.workers, t.workers, s.workers[j].id, e.message.value, TurnAt(turns, j).refused);
    }
  }

  lemma {:induction false} StuckSame(ws: seq<Worker>, vs: seq<Worker>, i: nat, turns: seq<Turn>)
    requires SameWorkers(ws, vs) && i <= |ws| && forall k :: i <= k < |ws| ==> ws[k] == vs[k]
    ensures FirstStuck(ws, i, turns) == FirstStuck(vs, i, turns)
    decreases |ws| - i
  {
    hide Goes;
    if i < |ws| {
      if ws[i].inbox != [] {
        GoesSame(ws, vs, ws[i].inbox[0], TurnAt(turns, i).refused);
      }
      StuckSame(ws, vs, i + 1, turns);
    }
  }

  /** process_all leaves the count of the pass that fails out: an error entry counts 1 in process_once and 0 here. */
  lemma FailedPassUncounted(error: ServerError)
    requires error != SUCCESS
    ensures var s := EMPTY.(workers := [NewWorker([97], [], [], []).(inbox := [Entry(None, error)])]);
            && Once(s, []).requests == 1 && Once(s, []).error == error && Once(s, []).client == None
            && All(s, []).requests == 0 && All(s, []).error == error && All(s, []).client == None
  {
    var s := EMPTY.(workers := [NewWorker([97], [], [], []).(inbox := [Entry(None, error)])]);
    ArriveNothing(s);
    assert Drain(s, 0, map[]).stop;
    assert OnceFrom(s, 0, []) == Drain(s, 0, map[]);
  }
}
