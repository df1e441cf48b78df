/**
 The timed exclusion on the Common Access Pipe: the server writes a reply only after its own listener has seen
 the BLOCK state. Time is in milliseconds; a check and the read that follows it take no time.
 */
module CapLock {
  import opened Types
  import Transport

  /** The sleep of octopipes_server_lock_cap, the read budget and the two sleeps of cap_loop. */
  const WAIT: nat := 500
  const READ_BUDGET: nat := 200
  const PAUSE: nat := 100

  /** Idle outside of write_cap; Waiting in lock_cap's sleep; Writing in pipe_send. */
  datatype Writer = Idle | Waiting(since: nat) | Writing

  /** Checking: about to test the state; Reading in pipe_receive; Sleeping in one of the two sleeps. */
  datatype Listener = Checking | Reading(since: nat) | Sleeping(since: nat)

  datatype Clocked = Clocked(now: nat, blocked: bool, writer: Writer, listener: Listener)

  const INITIAL: Clocked := Clocked(0, false, Idle, Checking)

  /** The steps of the two threads, and the passing of one millisecond. */
  datatype Act = Tick | Lock | StartWrite | Unlock | Check | EndRead | Wake

  /** A read on an idle CAP ends within its budget, and a check is made as soon as it is due. */
  predicate MayTick(c: Clocked, budget: nat) {
    match c.listener
    case Checking => false
    case Reading(since) => c.now < since + budget
    case Sleeping(_) => true
  }

  /** lock_cap sets BLOCK and sleeps; the write follows; every way out of write_cap unlocks. */
  predicate Can(c: Clocked, act: Act, wait: nat, budget: nat) {
    match act
    case Tick => MayTick(c, budget)
    case Lock => c.writer == Idle
    case StartWrite => c.writer.Waiting? && c.now >= c.writer.since + wait
    case Unlock => c.writer == Writing
    case Check => c.listener == Checking
    case EndRead => c.listener.Reading?
    case Wake => c.listener.Sleeping? && c.now >= c.listener.since + PAUSE
  }

  function Do(c: Clocked, act: Act): (r: Clocked) {
    match act
    case Tick => c.(now := c.now + 1)
    case Lock => c.(blocked := true, writer := Waiting(c.now))
    case StartWrite => c.(writer := Writing)
    case Unlock => c.(blocked := false, writer := Idle)
    case Check => c.(listener := if c.blocked then Sleeping(c.now) else Reading(c.now))
    case EndRead => c.(listener := Sleeping(c.now))
    case Wake => c.(listener := Checking)
  }

  predicate Runs(c: Clocked, acts: seq<Act>, wait: nat, budget: nat)
    decreases |acts|
  {
    acts == [] || (Can(c, acts[0], wait, budget) && Runs(Do(c, acts[0]), acts[1..], wait, budget))
  }

  function After(c: Clocked, acts: seq<Act>): (r: Clocked)
    decreases |acts|
  {
    if acts == [] then c else After(Do(c, acts[0]), acts[1..])
  }

  predicate Overlap(c: Clocked) {
    c.listener.Reading? && c.writer == Writing
  }

  /** A read under way began before the lock was taken, so it is over before the lock's wait is. */
  predicate Invariant(c: Clocked, wait: nat, budget: nat) {
    && (c.blocked <==> c.writer != Idle)
    && (c.listener.Reading? ==> c.listener.since <= c.now <= c.listener.since + budget)
    && (c.writer.Waiting? && c.listener.Reading? ==> c.listener.since <= c.writer.since)
    && !Overlap(c)
  }

  lemma ActKeepsInvariant(c: Clocked, act: Act, wait: nat, budget: nat)
    requires budget < wait && Invariant(c, wait, budget) && Can(c, act, wait, budget)
    ensures Invariant(Do(c, act), wait, budget)
  {
  }

  lemma {:induction false} RunKeepsInvariant(c: Clocked, acts: seq<Act>, wait: nat, budget: nat)
    requires budget < wait && Invariant(c, wait, budget) && Runs(c, acts, wait, budget)
    ensures Invariant(After(c, acts), wait, budget)
    decreases |acts|
  {
    if acts != [] {
      ActKeepsInvariant(c, acts[0], wait, budget);
      RunKeepsInvariant(Do(c, acts[0]), acts[1..], wait, budget);
    }
  }

  function Ticks(n: nat): (acts: seq<Act>) {
    seq(n, i => Tick)
  }

  lemma {:induction false} TicksPass(c: Clocked, n: nat, rest: seq<Act>, wait: nat, budget: nat)
    requires c.listener.Reading? && c.now + n <= c.listener.since + budget
    ensures After(c, Ticks(n) + rest) == After(c.(now := c.now + n), rest)
    ensures Runs(c, Ticks(n) + rest, wait, budget) <==> Runs(c.(now := c.now + n), rest, wait, budget)
    decreases n
  {
    if n == 0 {
      assert Ticks(0) + rest == rest;
    } else {
      assert (Ticks(n) + rest)[1..] == Ticks(n - 1) + rest;
      TicksPass(Do(c, Tick), n - 1, rest, wait, budget);
    }
  }

  /** A run in which the listener starts to read, the lock is taken, and the wait passes while it reads. */
  lemma OverlapPossible(wait: nat, budget: nat)
    requires budget >= wait
    ensures var acts := [Check, Lock] + (Ticks(wait) + [StartWrite]);
            Runs(INITIAL, acts, wait, budget) && Overlap(After(INITIAL, acts))
  {
    var acts := [Check, Lock] + (Ticks(wait) + [StartWrite]);
    var c := Do(Do(INITIAL, Check), Lock);
    var d := c.(now := wait);
    TicksPass(c, wait, [StartWrite], wait, budget);
    assert [StartWrite][1..] == [];
    assert Runs(Do(d, StartWrite), [], wait, budget) && Can(d, StartWrite, wait, budget);
    assert After(d, [StartWrite]) == After(Do(d, StartWrite), []) == Do(d, StartWrite);
    assert acts[1..] == [Lock] + (Ticks(wait) + [StartWrite]);
    assert acts[1..][1..] == Ticks(wait) + [StartWrite];
    assert After(INITIAL, acts) == After(Do(INITIAL, Check), acts[1..]) == After(c, acts[1..][1..]);
    assert Runs(INITIAL, acts, wait, budget) <==> Runs(Do(INITIAL, Check), acts[1..], wait, budget);
    assert Runs(Do(INITIAL, Check), acts[1..], wait, budget) <==> Runs(c, acts[1..][1..], wait, budget);
  }

  predicate Harmless(acts: seq<Act>, wait: nat, budget: nat) {
    Runs(INITIAL, acts, wait, budget) ==> !Overlap(After(INITIAL, acts))
  }

  /** The listener never reads while the server writes, in every run, iff a read is shorter than the wait. */
  lemma ExclusionIff(wait: nat, budget: nat)
    ensures (forall acts :: Harmless(acts, wait, budget)) <==> budget < wait
  {
    if budget < wait {
      forall acts ensures Harmless(acts, wait, budget) {
        if Runs(INITIAL, acts, wait, budget) {
          RunKeepsInvariant(INITIAL, acts, wait, budget);
        }
      }
    } else {
      OverlapPossible(wait, budget);
      var acts := [Check, Lock] + (Ticks(wait) + [StartWrite]);
      assert !Harmless(acts, wait, budget);
    }
  }

  /** With the source's constants the exclusion holds, and outside of write_cap the state is never BLOCK. */
  lemma SourceTimingExcludes(acts: seq<Act>)
    requires Runs(INITIAL, acts, WAIT, READ_BUDGET)
    ensures !Overlap(After(INITIAL, acts))
    ensures After(INITIAL, acts).blocked <==> After(INITIAL, acts).writer != Idle
  {
    RunKeepsInvariant(INITIAL, acts, WAIT, READ_BUDGET);
  }

  /** The waits of the source: 500 ms from the lock to the write, 200 ms for an idle read, 100 ms between two checks. */
  lemma SourceWaits(c: Clocked)
    ensures Can(c, StartWrite, WAIT, READ_BUDGET) ==> c.now >= c.writer.since + 500
    ensures Can(c, Wake, WAIT, READ_BUDGET) ==> c.now >= c.listener.since + 100
    ensures c.listener.Reading? && Can(c, Tick, WAIT, READ_BUDGET) ==> c.now < c.listener.since + 200
  {
  }

  /** The budget is that of the listener's reads: on an idle CAP one ends with its fourth poll, when it is used up. */
  lemma IdleReadTakesBudget(idle: seq<Transport.ReadEvent>)
    requires Transport.Idle(idle)
    ensures Transport.Receive(READ_BUDGET, None, 0, idle)
         == if Transport.Empties(idle) < 4 then None else Some(Err(NO_DATA_AVAILABLE))
    ensures 4 * Transport.POLL_TIME == READ_BUDGET
  {
    Transport.IdleReadFrom(READ_BUDGET, 0, idle);
  }
}
