/** Bounded waiting: repeated process_once calls serve every inbox, whatever the other listeners do. */
module Waiting {
  import opened Bytes
  import opened Broker
  import opened Control
  import opened Routing
  import opened Drains
  import opened Cap

  predicate ArrivalsOk(arrivals: seq<(Name, Entry)>) {
    forall a :: a in arrivals ==> a.1.Valid()
  }

  predicate TurnsOk(turns: seq<Turn>) {
    forall t :: t in turns ==> ArrivalsOk(t.arrivals)
  }

  /** Same workers in the same places; inboxes may only have grown at their ends, and the logs are kept. */
  predicate Grown(s: Server, t: Server) {
    && t.folder == s.folder && |t.workers| == |s.workers| && s.drained <= t.drained
    && forall i :: 0 <= i < |s.workers| ==>
         t.workers[i].(inbox := []) == s.workers[i].(inbox := []) && s.workers[i].inbox <= t.workers[i].inbox
  }

  lemma {:induction false} ArriveGrows(s: Server, arrivals: seq<(Name, Entry)>)
    requires EntriesOk(s.workers) && ArrivalsOk(arrivals)
    ensures Grown(s, Arrive(s, arrivals)) && EntriesOk(Arrive(s, arrivals).workers)
    ensures Arrive(s, arrivals).drained == s.drained
    decreases |arrivals|
  {
    if arrivals != [] {
      assert arrivals[0] in arrivals;
      PushValid(s, arrivals[0].0, arrivals[0].1);
      ArriveGrows(Push(s, arrivals[0].0, arrivals[0].1), arrivals[1..]);
    }
  }

  lemma PushValid(s: Server, id: Name, e: Entry)
    requires EntriesOk(s.workers) && e.Valid()
    ensures EntriesOk(Push(s, id, e).workers) && Grown(s, Push(s, id, e))
  {
  }

  lemma DrainValid(s: Server, i: nat, refused: Refusals)
    requires i < |s.workers| && EntriesOk(s.workers)
    ensures var w, d := s.workers[i], Drain(s, i, refused);
            && EntriesOk(d.server.workers) && d.server.folder == s.folder && (d.stop ==> d.error != SUCCESS)
            && d.server.workers == s.workers[i := w.(inbox := w.inbox[Min1(w.inbox)..])]
            && d.server.drained == s.drained + Heads([w])
  {
    var w := s.workers[i];
    assert [w][1..] == [];
    if w.inbox != [] {
      assert w.inbox[0].Valid();
    }
  }

  /** A worker kept its identity, and its inbox lost at most its head. */
  predicate Served(v: Worker, w: Worker, lost: nat) {
    w.(inbox := []) == v.(inbox := []) && lost <= |v.inbox| && v.inbox[lost..] <= w.inbox
  }

  /** A successful pass takes the head of every non-empty inbox it comes to, and only heads. */
  lemma {:induction false} PassServes(s: Server, j: nat, turns: seq<Turn>)
    requires j <= |s.workers| && EntriesOk(s.workers) && TurnsOk(turns)
    requires OnceFrom(s, j, turns).error == SUCCESS
    ensures var t := OnceFrom(s, j, turns).server;
            && EntriesOk(t.workers) && t.folder == s.folder && s.drained <= t.drained
            && (forall i :: 0 <= i < j ==> Served(s.workers[i], t.workers[i], 0))
            && (forall i :: j <= i < |s.workers| ==>
                  && Served(s.workers[i], t.workers[i], Min1(s.workers[i].inbox))
                  && (s.workers[i].inbox != [] ==>
                        (s.workers[i].id, s.workers[i].inbox[0]) in t.drained[|s.drained|..]))
    decreases |s.workers| - j
  {
    hide Drain, Arrive, Heads, Registered;
    if j < |s.workers| {
      var turn := TurnAt(turns, j);
      assert ArrivalsOk(turn.arrivals);
      var a := Arrive(s, turn.arrivals);
      ArriveGrows(s, turn.arrivals);
      DrainValid(a, j, turn.refused);
      var d := Drain(a, j, turn.refused).server;
      PassServes(d, j + 1, turns);
      PassStep(s, j, a, d, OnceFrom(d, j + 1, turns).server);
    }
  }

  lemma PassStep(s: Server, j: nat, a: Server, d: Server, t: Server)
    requires j < |s.workers| == |t.workers| && Grown(s, a) && a.drained == s.drained
    requires var w := a.workers[j];
             d.workers == a.workers[j := w.(inbox := w.inbox[Min1(w.inbox)..])] && d.drained == a.drained + Heads([w])
    requires d.drained <= t.drained
    requires forall i :: 0 <= i < j + 1 ==> Served(d.workers[i], t.workers[i], 0)
    requires forall i :: j + 1 <= i < |s.workers| ==>
               && Served(d.workers[i], t.workers[i], Min1(d.workers[i].inbox))
               && (d.workers[i].inbox != [] ==> (d.workers[i].id, d.workers[i].inbox[0]) in t.drained[|d.drained|..])
    ensures forall i :: 0 <= i < j ==> Served(s.workers[i], t.workers[i], 0)
    ensures forall i :: j <= i < |s.workers| ==>
              && Served(s.workers[i], t.workers[i], Min1(s.workers[i].inbox))
              && (s.workers[i].inbox != [] ==>
                    (s.workers[i].id, s.workers[i].inbox[0]) in t.drained[|s.drained|..])
  {
    forall i | 0 <= i < |s.workers|
      ensures Served(s.workers[i], t.workers[i], if i < j then 0 else Min1(s.workers[i].inbox))
    {
      assert s.workers[i].inbox <= a.workers[i].inbox;
    }
    var w := a.workers[j];
    assert [w][1..] == [];
    if s.workers[j].inbox != [] {
      assert Heads([w]) == [(w.id, w.inbox[0])];
      assert t.drained[|s.drained|] == d.drained[|s.drained|] == (w.id, w.inbox[0]);
    }
    forall i | j + 1 <= i < |s.workers| && s.workers[i].inbox != []
      ensures (s.workers[i].id, s.workers[i].inbox[0]) in t.drained[|s.drained|..]
    {
      assert s.workers[i].inbox <= a.workers[i].inbox;
      var taken := (s.workers[i].id, s.workers[i].inbox[0]);
      var x :| 0 <= x < |t.drained[|d.drained|..]| && t.drained[|d.drained|..][x] == taken;
      assert t.drained[|s.drained|..][x + |d.drained| - |s.drained|] == taken;
    }
  }

  // ----- A sequence of calls -----

  /** One process_once call, after listeners and CAP requests did whatever they did. */
  datatype Call = Call(between: seq<Step>, turns: seq<Turn>)

  /** No drain among the steps, only valid entries are queued, and the client stays registered throughout. */
  predicate Undisturbed(s: Server, steps: seq<Step>, id: Name)
    decreases |steps|
  {
    Registered(s.workers, id) &&
    (steps == [] ||
      (&& !steps[0].Draining? && (steps[0].Pushing? ==> steps[0].entry.Valid())
       && Undisturbed(StepTo(s, steps[0]), steps[1..], id)))
  }

  function After(s: Server, c: Call): (t: Server) {
    Once(Run(s, c.between), c.turns).server
  }

  /** All the calls succeed, and the client stays registered. */
  predicate Succeed(s: Server, calls: seq<Call>, id: Name)
    decreases |calls|
  {
    calls == [] ||
    (&& Undisturbed(s, calls[0].between, id) && TurnsOk(calls[0].turns)
     && Once(Run(s, calls[0].between), calls[0].turns).error == SUCCESS
     && Succeed(After(s, calls[0]), calls[1..], id))
  }

  /** The last of the calls takes this entry from the inbox of the client. */
  predicate LastTakes(s: Server, calls: seq<Call>, id: Name, e: Entry)
    requires calls != []
    decreases |calls|
  {
    if |calls| > 1 then LastTakes(After(s, calls[0]), calls[1..], id, e)
    else
      var t := Run(s, calls[0].between);
      |t.drained| <= |After(s, calls[0]).drained| && (id, e) in After(s, calls[0]).drained[|t.drained|..]
  }

  lemma {:induction false} BetweenKeepsInbox(s: Server, steps: seq<Step>, id: Name)
    requires RegistryOk(s.folder, s.workers) && EntriesOk(s.workers) && Undisturbed(s, steps, id)
    ensures var t := Run(s, steps);
            && RegistryOk(t.folder, t.workers) && EntriesOk(t.workers) && Registered(t.workers, id)
            && InboxOf(s.workers, id) <= InboxOf(t.workers, id)
    decreases |steps|
  {
    if steps != [] {
      StepKeepsRegistry(s, steps[0]);
      StepKeepsInbox(s, steps[0], id);
      StepKeepsEntries(s.(drained := []), steps[0]);
      SameWorkersAfter(s, steps[0]);
      BetweenKeepsInbox(StepTo(s, steps[0]), steps[1..], id);
    }
  }

  lemma SameWorkersAfter(s: Server, step: Step)
    ensures StepTo(s.(drained := []), step).workers == StepTo(s, step).workers
  {
    hide ParseGroups, Assignment, TxPath, RxPath;
  }

  lemma StepKeepsInbox(s: Server, step: Step, id: Name)
    requires RegistryOk(s.folder, s.workers) && !step.Draining? && Registered(StepTo(s, step).workers, id)
    ensures InboxOf(s.workers, id) <= InboxOf(StepTo(s, step).workers, id)
  {
    match step
    case Pushing(to, e) => PushConserves(s, to, e, id);
    case Controlling(m, env) => CapConserves(s, m, env, id);
  }

  /**
   Bounded waiting: an entry with k entries before it is taken by the (k+1)-th successful call, whatever is
   queued for anyone and whoever subscribes or leaves in the meantime.
   */
  lemma {:induction false} BoundedWaiting(s: Server, calls: seq<Call>, id: Name, k: nat)
    requires RegistryOk(s.folder, s.workers) && EntriesOk(s.workers)
    requires |calls| == k + 1 && Succeed(s, calls, id) && k < |InboxOf(s.workers, id)|
    ensures LastTakes(s, calls, id, InboxOf(s.workers, id)[k])
    decreases k
  {
    var t := Run(s, calls[0].between);
    BetweenKeepsInbox(s, calls[0].between, id);
    PassServes(t, 0, calls[0].turns);
    CallServes(t, calls[0].turns, id);
    var u := After(s, calls[0]);
    if k > 0 {
      assert InboxOf(t.workers, id)[1..][k - 1] == InboxOf(s.workers, id)[k];
      BoundedWaiting(u, calls[1..], id, k - 1);
    }
  }

  lemma CallServes(t: Server, turns: seq<Turn>, id: Name)
    requires RegistryOk(t.folder, t.workers) && EntriesOk(t.workers) && TurnsOk(turns)
    requires Once(t, turns).error == SUCCESS && Registered(t.workers, id) && InboxOf(t.workers, id) != []
    ensures var u := Once(t, turns).server;
            && RegistryOk(u.folder, u.workers) && EntriesOk(u.workers)
            && InboxOf(t.workers, id)[1..] <= InboxOf(u.workers, id)
            && t.drained <= u.drained && (id, InboxOf(t.workers, id)[0]) in u.drained[|t.drained|..]
  {
    var u := Once(t, turns).server;
    PassServes(t, 0, turns);
    OnceIsRun(t, 0, turns);
    RegistryAlongRun(t, OnceSteps(t, 0, turns));
    var i := IndexOf(t.workers, id);
    assert Served(t.workers[i], u.workers[i], 1);
    assert u.workers[i].id == u.workers[i].(inbox := []).id == id;
    IndexOfUnique(u.workers, i);
  }
}
