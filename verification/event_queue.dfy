/** The event queue shared by all event threads, and the pipe that wakes them
    (src/chassis-event-thread.c).  Every step below runs under the queue's lock. */
module EventQueue {

  /** A request to add an event to some thread's event base, with or without a timeout. */
  datatype EventOp = EventOp(ev: int, timeout: Timeout)

  datatype Timeout = NoTimeout | Within(sec: int, usec: int)

  type Thread = nat

  datatype Applied = Applied(op: EventOp, thread: Thread)

  /** `applied` and `freed` record what has happened; the rest is what the program keeps.  `looping` are the threads
      inside `chassis_event_handle`. */
  datatype System = System(
    queue: seq<EventOp>,
    pipe: nat,
    looping: set<Thread>,
    applied: seq<Applied>,
    freed: seq<EventOp>)

  function Initial(): System {
    System([], 0, {}, [], [])
  }

  /** One step of some thread.  A woken thread may find that another one has already emptied the pipe. */
  datatype Action =
    | Add(ev: int, tv: Timeout)   // chassis_event_add_with_timeout
    | Wake(thread: Thread)        // the pipe was readable: chassis_event_handle is entered
    | Round(thread: Thread)       // one round of its loop
    | Shutdown                    // chassis_event_threads_free, after every thread was joined

  predicate Enabled(st: System, a: Action) {
    match a
    case Add(_, _) => true
    case Wake(t) => t !in st.looping
    case Round(t) => t in st.looping
    case Shutdown => st.looping == {}
  }

  /** `cap` is the number of bytes the pipe holds; sending to a full pipe, and receiving from an
      empty one, fails without harm. */
  function Next(cap: nat, st: System, a: Action): System
    requires Enabled(st, a)
  {
    match a
    case Add(ev, tv) =>
      st.(queue := st.queue + [EventOp(ev, tv)], pipe := if st.pipe < cap then st.pipe + 1 else st.pipe)
    case Wake(t) => st.(looping := st.looping + {t})
    case Round(t) =>
      if st.queue == [] then st.(looping := st.looping - {t})
      else
        st.(queue := st.queue[1..], applied := st.applied + [Applied(st.queue[0], t)],
            pipe := if st.pipe > 0 then st.pipe - 1 else 0)
    case Shutdown => st.(queue := [], freed := st.freed + st.queue)
  }

  function Ops(log: seq<Applied>): (r: seq<EventOp>)
    ensures |r| == |log|
  {
    seq(|log|, i requires 0 <= i < |log| => log[i].op)
  }

  /** A pending operation has a byte in the pipe, or a thread that will look at the queue again. */
  predicate WakeupPending(st: System) {
    st.queue != [] ==> st.pipe > 0 || st.looping != {}
  }

  predicate Good(cap: nat, st: System) {
    st.pipe <= |st.queue| && st.pipe <= cap && WakeupPending(st)
  }

  lemma NextGood(cap: nat, st: System, a: Action)
    requires cap > 0 && Good(cap, st) && Enabled(st, a) && !a.Shutdown?
    ensures Good(cap, Next(cap, st, a))
  {
    if a.Round? && st.queue != [] { assert a.thread in Next(cap, st, a).looping; }
  }

  // ----- whole runs -----

  /** Action `i` leads from state `i` to state `i + 1`. */
  predicate StepAt(cap: nat, states: seq<System>, actions: seq<Action>, i: nat)
    requires |states| == |actions| + 1 && i < |actions|
  {
    Enabled(states[i], actions[i]) && states[i + 1] == Next(cap, states[i], actions[i])
  }

  /** The states between these actions, performed one after the other. */
  predicate IsPath(cap: nat, states: seq<System>, actions: seq<Action>) {
    |states| == |actions| + 1 && forall i {:trigger StepAt(cap, states, actions, i)} :: 0 <= i < |actions| ==>
      StepAt(cap, states, actions, i)
  }

  predicate IsRun(cap: nat, states: seq<System>, actions: seq<Action>) {
    IsPath(cap, states, actions) && states[0] == Initial()
  }

  /** None of the first `n` actions is the shutdown. */
  predicate StillUp(actions: seq<Action>, n: nat)
    requires n <= |actions|
  {
    forall i :: 0 <= i < n ==> !actions[i].Shutdown?
  }

  /** No interleaving of producers and handlers loses a wake-up, or leaves more bytes in the pipe than operations in
      the queue. */
  lemma {:induction false} RunGood(cap: nat, states: seq<System>, actions: seq<Action>, n: nat)
    requires cap > 0 && IsRun(cap, states, actions) && n < |states| && StillUp(actions, n)
    ensures Good(cap, states[n])
    decreases n
  {
    if n > 0 {
      RunGood(cap, states, actions, n - 1);
      assert StepAt(cap, states, actions, n - 1);
      NextGood(cap, states[n - 1], actions[n - 1]);
    }
  }

  /** When no thread is inside the handler, the pipe is readable exactly when there is work: nobody
      sleeps over a pending operation, and nobody is woken for nothing. */
  lemma SleepIffIdle(cap: nat, states: seq<System>, actions: seq<Action>, n: nat)
    requires cap > 0 && IsRun(cap, states, actions) && n < |states| && StillUp(actions, n)
    requires states[n].looping == {}
    ensures states[n].queue != [] <==> states[n].pipe > 0
  {
    RunGood(cap, states, actions, n);
  }

  /** What the callers of `chassis_event_add_with_timeout` asked for, in order: each event with its own timeout. */
  function Asked(actions: seq<Action>): seq<EventOp> {
    if actions == [] then []
    else
      var (a, before) := (actions[|actions| - 1], Asked(actions[..|actions| - 1]));
      if a.Add? then before + [EventOp(a.ev, a.tv)] else before
  }

  /** The threads whose rounds found an operation, in order. */
  function Takers(states: seq<System>, actions: seq<Action>): seq<Thread>
    requires |states| == |actions| + 1
    decreases |actions|
  {
    if actions == [] then []
    else
      var n := |actions| - 1;
      var before := Takers(states[..n + 1], actions[..n]);
      if actions[n].Round? && states[n].queue != [] then before + [actions[n].thread] else before
  }

  function By(log: seq<Applied>): (r: seq<Thread>)
    ensures |r| == |log|
  {
    seq(|log|, i requires 0 <= i < |log| => log[i].thread)
  }

  lemma AddAccounts(cap: nat, st: System, a: Action)
    requires Enabled(st, a) && a.Add?
    ensures
      var st' := Next(cap, st, a);
      Ops(st'.applied) + st'.queue == Ops(st.applied) + st.queue + [EventOp(a.ev, a.tv)] && st'.applied == st.applied
  {
  }

  lemma RoundAccounts(cap: nat, st: System, a: Action)
    requires Enabled(st, a) && a.Round?
    ensures
      var st' := Next(cap, st, a);
      && Ops(st'.applied) + st'.queue == Ops(st.applied) + st.queue
      && By(st'.applied) == if st.queue != [] then By(st.applied) + [a.thread] else By(st.applied)
  {
    var st' := Next(cap, st, a);
    if st.queue != [] {
      assert Ops(st'.applied) == Ops(st.applied) + [st.queue[0]];
      assert By(st'.applied) == By(st.applied) + [a.thread];
      assert st.queue == [st.queue[0]] + st.queue[1..];
    }
  }

  /** Until the shutdown every operation that was asked for has been applied exactly once, in order and with its own
      timeout, by the thread that took it out, or waits in the queue. */
  lemma {:induction false} RunAccounts(cap: nat, states: seq<System>, actions: seq<Action>, n: nat)
    requires IsRun(cap, states, actions) && n < |states| && StillUp(actions, n)
    ensures states[n].freed == [] && Asked(actions[..n]) == Ops(states[n].applied) + states[n].queue
    ensures By(states[n].applied) == Takers(states[..n + 1], actions[..n])
    decreases n
  {
    if n > 0 {
      RunAccounts(cap, states, actions, n - 1);
      assert StepAt(cap, states, actions, n - 1);
      var (st, a) := (states[n - 1], actions[n - 1]);
      assert actions[..n][..n - 1] == actions[..n - 1] && states[..n + 1][..n] == states[..n];
      match a
      case Add(_, _) => AddAccounts(cap, st, a);
      case Round(_) => RoundAccounts(cap, st, a);
      case Wake(_) =>
    }
  }

  /** After the shutdown every operation that was asked for was applied exactly once, in order, or is among those
      freed, also in order. */
  lemma ShutdownAccounts(cap: nat, states: seq<System>, actions: seq<Action>, n: nat)
    requires IsRun(cap, states, actions) && n < |actions| && StillUp(actions, n) && actions[n] == Shutdown
    ensures states[n + 1].queue == [] && Asked(actions[..n]) == Ops(states[n + 1].applied) + states[n + 1].freed
  {
    RunAccounts(cap, states, actions, n);
    assert StepAt(cap, states, actions, n);
  }

  // ----- progress -----

  /** Each round of a handler takes one operation or one thread out, whoever is scheduled. */
  lemma {:induction false} RoundsDrain(cap: nat, states: seq<System>, actions: seq<Action>, n: nat)
    requires IsPath(cap, states, actions) && n <= |actions| && forall i :: 0 <= i < n ==> actions[i].Round?
    ensures |states[0].queue| + |states[0].looping| == |states[n].queue| + |states[n].looping| + n
    decreases n
  {
    if n > 0 {
      RoundsDrain(cap, states, actions, n - 1);
      assert StepAt(cap, states, actions, n - 1);
      var st, t := states[n - 1], actions[n - 1].thread;
      if st.queue == [] { assert st.looping == (st.looping - {t}) + {t}; }
    }
  }

  /** Handlers that are left alone for long enough have emptied the queue and gone back to sleep. */
  lemma HandlersFinish(cap: nat, states: seq<System>, actions: seq<Action>)
    requires IsPath(cap, states, actions) && forall i :: 0 <= i < |actions| ==> actions[i].Round?
    requires |actions| == |states[0].queue| + |states[0].looping|
    ensures states[|actions|].queue == [] && states[|actions|].looping == {}
  {
    RoundsDrain(cap, states, actions, |actions|);
  }

  // ----- the program's own object -----

  class Threads {
    var queue: seq<EventOp>
    var pipe: nat
    const cap: nat
    ghost var looping: set<Thread>
    ghost var applied: seq<Applied>
    ghost var freed: seq<EventOp>

    ghost function State(): System
      reads this
    {
      System(queue, pipe, looping, applied, freed)
    }

    constructor (size: nat)
      ensures State() == Initial() && cap == size
    {
      cap := size;
      queue, pipe, looping := [], 0, {};
      applied, freed := [], [];
    }

    /** Queues an operation and pings the event handlers. */
    method AddWithTimeout(ev: int, tv: Timeout)
      modifies this
      ensures State() == Next(cap, old(State()), Add(ev, tv))
      ensures queue == old(queue) + [EventOp(ev, tv)]
    {
      var op := EventOp(ev, NoTimeout);
      if tv.Within? { op := op.(timeout := tv); }
      queue := queue + [op];
      if pipe < cap { pipe := pipe + 1; }
    }

    /** One round of the handler's loop; the handler goes on while it has found an operation. */
    method HandleRound(t: Thread) returns (found: bool)
      requires t in looping
      modifies this
      ensures State() == Next(cap, old(State()), Round(t))
      ensures found <==> old(queue) != []
    {
      found := |queue| > 0;
      if found {
        var op := queue[0];
        queue := queue[1..];
        applied := applied + [Applied(op, t)];
        if pipe > 0 { pipe := pipe - 1; }
      } else {
        looping := looping - {t};
      }
    }

    /** The handler's loop when no other thread comes in between: it applies everything that was queued,
        in order, and leaves the pipe empty. */
    method Handle(t: Thread)
      requires Good(cap, State()) && t !in looping && cap > 0
      modifies this
      ensures queue == [] && pipe == 0 && looping == old(looping) && freed == old(freed)
      ensures Ops(applied) == old(Ops(applied) + queue) && applied[..old(|applied|)] == old(applied)
      ensures forall i :: old(|applied|) <= i < |applied| ==> applied[i].thread == t
    {
      looping := looping + {t};
      assert State() == Next(cap, old(State()), Wake(t));
      NextGood(cap, old(State()), Wake(t));
      ghost var base := |applied|;
      var found := true;
      while found
        invariant Good(cap, State()) && freed == old(freed) && Ops(applied) + queue == old(Ops(applied) + queue)
        invariant |applied| >= base == old(|applied|) && applied[..base] == old(applied)
        invariant base <= |applied| && forall i :: base <= i < |applied| ==> applied[i].thread == t
        invariant looping == (if found then old(looping) + {t} else old(looping))
        invariant !found ==> queue == []
        decreases found, |queue|
      {
        ghost var st := State();
        found := HandleRound(t);
        NextGood(cap, st, Round(t));
        RoundAccounts(cap, st, Round(t));
        if !found { assert (old(looping) + {t}) - {t} == old(looping); }
      }
    }

    /** Frees what is left when all event threads have ended. */
    method Free()
      requires looping == {}
      modifies this
      ensures State() == Next(cap, old(State()), Shutdown)
    {
      ghost var before := freed;
      ghost var all := queue;
      while |queue| > 0
        invariant freed + queue == before + all
        invariant looping == {} && pipe == old(pipe) && applied == old(applied)
        decreases |queue|
      {
        var op := queue[0];
        assert queue == [op] + queue[1..];
        queue := queue[1..];
        freed := freed + [op];
      }
      assert queue == [];
    }
  }
}
