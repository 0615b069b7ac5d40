/**
  The registry of live websocket services (`app/api/websocket.py`). A service is named by the handler that created it.
 */
module WebsocketRegistry {
  import opened Text

  // ---------- The set, one call at a time ----------

  /** How a service's own coroutine ends. */
  datatype Ending = Returned | RaisedError | WasCancelled

  class ActiveServices {
    var active: set<nat>

    constructor ()
      ensures active == {}
    {
      active := {};
    }

    method Register(service: nat)
      modifies this
      ensures active == old(active) + {service}
    {
      active := active + {service};
    }

    method Unregister(service: nat)
      modifies this
      ensures active == old(active) - {service}
    {
      active := active - {service};
    }

    /** `twilio_websocket_handler` undisturbed: the `finally` leaves nothing behind however the service ends. */
    method Handle(service: nat, runs: nat -> Ending) returns (ending: Ending)
      modifies this
      ensures ending == runs(service) && active == old(active) - {service}
    {
      Register(service);
      ending := runs(service);
      Unregister(service);
    }

    /** `shutdown_websockets`: every service that was active is shut down once, also after others have raised. */
    method ShutdownAll(shutdown: nat -> Ending) returns (stopped: seq<nat>, results: seq<Ending>)
      modifies this
      ensures active == {}
      ensures multiset(stopped) == multiset(old(active))
      ensures |results| == |stopped| && forall k :: 0 <= k < |stopped| ==> results[k] == shutdown(stopped[k])
    {
      var services := active;
      active := {};
      stopped, results := [], [];
      while services != {}
        invariant active == {}
        invariant multiset(stopped) + multiset(services) == multiset(old(active))
        invariant |results| == |stopped| && forall k :: 0 <= k < |stopped| ==> results[k] == shutdown(stopped[k])
        decreases |services|
      {
        var service :| service in services;
        assert multiset(services) == multiset(services - {service}) + multiset{service};
        services := services - {service};
        stopped, results := stopped + [service], results + [shutdown(service)];
      }
    }
  }

  // ---------- Any number of handlers and sweeps at once, on one event loop ----------

  datatype Task = Handler(h: nat) | Sweeper(s: nat)

  /**
    Where a handler stands. It acquires the lock at `Entering` or, having found it taken, waits at `BlockedIn`; it
    holds it at `Adding` and gives it back at `Added`. The `finally` does the same from `Leaving` on. A handler that is
    cancelled at `BlockedIn` has ended, one cancelled at `BlockedOut` is `Abandoned`: its service was never discarded.
   */
  datatype Phase =
    | Entering | BlockedIn | Adding | Added
    | Serving
    | Leaving | BlockedOut | Discarding | Discarded
    | Ended | Abandoned

  /** Where a sweep stands: the same way through the lock, then awaiting its shutdowns, then ended or cancelled. */
  datatype Stage = Asking | Blocked | Taking | Taken | Stopping | Finished | Dropped

  /** The services a sweep took, and those of them whose `shutdown()` it still awaits. */
  datatype Sweep = Sweep(stage: Stage, taken: set<nat>, pending: set<nat>)

  /** One service's `shutdown()` has ended, awaited by that sweep. */
  datatype Stop = Stop(sweep: nat, service: nat)

  /** `running` is the task the event loop is executing, if it is executing one; `lock` is the lock's holder. */
  datatype Loop = Loop(handlers: map<nat, Phase>, sweeps: map<nat, Sweep>, active: set<nat>, stops: seq<Stop>,
                       lock: Option<Task>, running: Option<Task>)

  const START := Loop(map[], map[], {}, [], None, None)

  /** What can happen next. `Instruction` is the running task's next one; the others need the loop to be idle. */
  datatype Event =
    | Connect(handler: nat)
    | ShutdownCalled(sweep: nat)
    | Instruction
    | Suspend
    | ServiceEnds(handler: nat, ending: Ending)
    | ShutdownEnds(sweep: nat, service: nat, ending: Ending)
    | Gathered(sweep: nat)
    | Wake(task: Task)
    | Cancel(task: Task)

  predicate At(l: Loop, h: nat, phase: Phase) {
    h in l.handlers && l.handlers[h] == phase
  }

  predicate SweepAt(l: Loop, s: nat, stage: Stage) {
    s in l.sweeps && l.sweeps[s].stage == stage
  }

  predicate IsBlocked(l: Loop, t: Task) {
    match t
    case Handler(h) => At(l, h, BlockedIn) || At(l, h, BlockedOut)
    case Sweeper(s) => SweepAt(l, s, Blocked)
  }

  predicate SomeBlocked(l: Loop) {
    (exists h <- l.handlers :: IsBlocked(l, Handler(h))) || (exists s <- l.sweeps :: IsBlocked(l, Sweeper(s)))
  }

  /** `asyncio.Lock.acquire` returns at once when the lock is free and nobody waits for it, and otherwise suspends. */
  predicate CanAcquire(l: Loop) {
    l.lock.None? && !SomeBlocked(l)
  }

  function Go(l: Loop, h: nat, phase: Phase): Loop {
    l.(handlers := l.handlers[h := phase])
  }

  function GoSweep(l: Loop, s: nat, sweep: Sweep): Loop {
    l.(sweeps := l.sweeps[s := sweep])
  }

  /** The next instruction of a running handler. */
  function HandlerInstruction(l: Loop, h: nat): Loop
    requires h in l.handlers
  {
    match l.handlers[h]
    case Entering =>
      if CanAcquire(l) then Go(l, h, Adding).(lock := Some(Handler(h))) else Go(l, h, BlockedIn).(running := None)
    case Adding => Go(l, h, Added).(active := l.active + {h})
    case Added => Go(l, h, Serving).(lock := None)
    case Leaving =>
      if CanAcquire(l) then Go(l, h, Discarding).(lock := Some(Handler(h))) else Go(l, h, BlockedOut).(running := None)
    case Discarding => Go(l, h, Discarded).(active := l.active - {h})
    case Discarded => Go(l, h, Ended).(lock := None, running := None)
    case _ => l
  }

  /** The next instruction of a running sweep. The last one starts the shutdowns, and awaits them if there are any. */
  function SweepInstruction(l: Loop, s: nat): Loop
    requires s in l.sweeps
  {
    var sweep := l.sweeps[s];
    match sweep.stage
    case Asking =>
      if CanAcquire(l) then GoSweep(l, s, sweep.(stage := Taking)).(lock := Some(Sweeper(s)))
      else GoSweep(l, s, sweep.(stage := Blocked)).(running := None)
    case Taking => GoSweep(l, s, Sweep(Taken, l.active, l.active)).(active := {})
    case Taken =>
      GoSweep(l, s, sweep.(stage := if sweep.taken == {} then Finished else Stopping)).(lock := None, running := None)
    case _ => l
  }

  /** A cancellation reaches a task where it is suspended. One that reaches a serving handler ends its service. */
  function Cancelled(l: Loop, t: Task): Loop {
    match t
    case Handler(h) =>
      if At(l, h, BlockedIn) then Go(l, h, Ended)
      else if At(l, h, BlockedOut) then Go(l, h, Abandoned)
      else l
    case Sweeper(s) =>
      if SweepAt(l, s, Blocked) || SweepAt(l, s, Stopping) then GoSweep(l, s, l.sweeps[s].(stage := Dropped)) else l
  }

  /** A waiter goes on once the lock has been given back. */
  function Woken(l: Loop, t: Task): Loop
    requires IsBlocked(l, t)
  {
    match t
    case Handler(h) =>
      Go(l, h, if At(l, h, BlockedIn) then Adding else Discarding).(lock := Some(t), running := Some(t))
    case Sweeper(s) => GoSweep(l, s, l.sweeps[s].(stage := Taking)).(lock := Some(t), running := Some(t))
  }

  /** One step; an event that cannot happen where it occurs changes nothing. */
  function Step(l: Loop, e: Event): Loop {
    match e
    case Connect(h) =>
      if l.running.None? && h !in l.handlers then Go(l, h, Entering).(running := Some(Handler(h))) else l
    case ShutdownCalled(s) =>
      if l.running.None? && s !in l.sweeps then GoSweep(l, s, Sweep(Asking, {}, {})).(running := Some(Sweeper(s)))
      else l
    case Instruction =>
      (match l.running
       case Some(Handler(h)) => if h in l.handlers then HandlerInstruction(l, h) else l
       case Some(Sweeper(s)) => if s in l.sweeps then SweepInstruction(l, s) else l
       case None => l)
    case Suspend =>
      if l.running.Some? && l.running.value.Handler? && At(l, l.running.value.h, Serving) then l.(running := None)
      else l
    case ServiceEnds(h, _) =>
      if At(l, h, Serving) && l.running in {None, Some(Handler(h))}
      then Go(l, h, Leaving).(running := Some(Handler(h))) else l
    case ShutdownEnds(s, h, _) =>
      if l.running.None? && SweepAt(l, s, Stopping) && h in l.sweeps[s].pending
      then GoSweep(l, s, l.sweeps[s].(pending := l.sweeps[s].pending - {h})).(stops := l.stops + [Stop(s, h)]) else l
    case Gathered(s) =>
      if l.running.None? && SweepAt(l, s, Stopping) && l.sweeps[s].pending == {}
      then GoSweep(l, s, l.sweeps[s].(stage := Finished)) else l
    case Wake(t) => if l.running.None? && l.lock.None? && IsBlocked(l, t) then Woken(l, t) else l
    case Cancel(t) => if l.running.None? then Cancelled(l, t) else l
  }

  function Run(events: seq<Event>): Loop {
    if events == [] then START else Step(Run(events[..|events| - 1]), events[|events| - 1])
  }

  // ---------- The lock ----------

  /** The phases between two suspensions; those of `Inside` are inside an `async with`. */
  predicate Busy(phase: Phase) {
    phase in {Entering, Leaving} || Inside(phase)
  }

  predicate Inside(phase: Phase) {
    phase in {Adding, Added, Discarding, Discarded}
  }

  /** Who holds the lock, read off the running task alone. */
  function Holder(l: Loop): Option<Task> {
    match l.running
    case None => None
    case Some(Handler(h)) => if h in l.handlers && Inside(l.handlers[h]) then l.running else None
    case Some(Sweeper(s)) => if s in l.sweeps && l.sweeps[s].stage in {Taking, Taken} then l.running else None
  }

  /**
    A task that is not running serves, awaits its shutdowns or has ended: none waits for the lock, none was abandoned.
   */
  predicate LockOk(l: Loop) {
    && (forall h <- l.handlers ::
          l.handlers[h] in {Serving, Ended} || (Busy(l.handlers[h]) && l.running == Some(Handler(h))))
    && (forall s <- l.sweeps ::
          || l.sweeps[s].stage in {Stopping, Finished, Dropped}
          || (l.sweeps[s].stage in {Asking, Taking, Taken} && l.running == Some(Sweeper(s))))
    && RunnerOk(l)
    && l.lock == Holder(l)
  }

  predicate RunnerOk(l: Loop) {
    match l.running
    case None => true
    case Some(Handler(h)) => h in l.handlers && (Busy(l.handlers[h]) || l.handlers[h] == Serving)
    case Some(Sweeper(s)) => s in l.sweeps && l.sweeps[s].stage in {Asking, Taking, Taken}
  }

  lemma NobodyBlocked(l: Loop)
    requires LockOk(l)
    ensures !SomeBlocked(l) && forall t :: !IsBlocked(l, t)
    ensures forall h <- l.handlers :: l.handlers[h] != Abandoned
  {
  }

  lemma HandlerKeepsLock(l: Loop, h: nat)
    requires LockOk(l) && l.running == Some(Handler(h))
    ensures LockOk(HandlerInstruction(l, h))
  {
    NobodyBlocked(l);
    hide SomeBlocked;
  }

  lemma SweepKeepsLock(l: Loop, s: nat)
    requires LockOk(l) && l.running == Some(Sweeper(s))
    ensures LockOk(SweepInstruction(l, s))
  {
    NobodyBlocked(l);
    hide SomeBlocked;
  }

  /** Nobody can be woken, and a cancellation finds only sweeps that await their shutdowns. */
  lemma WakeAndCancelKeepLock(l: Loop, t: Task)
    requires LockOk(l)
    ensures Step(l, Wake(t)) == l
    ensures LockOk(Step(l, Cancel(t)))
  {
    NobodyBlocked(l);
    hide SomeBlocked, Woken;
  }

  lemma StepKeepsLock(l: Loop, e: Event)
    requires LockOk(l)
    ensures LockOk(Step(l, e))
  {
    if e.Wake? || e.Cancel? {
      WakeAndCancelKeepLock(l, e.task);
    } else if e.Instruction? {
      hide LockOk, HandlerInstruction, SweepInstruction;
      match l.running {
        case Some(Handler(h)) => HandlerKeepsLock(l, h);
        case Some(Sweeper(s)) => SweepKeepsLock(l, s);
        case None =>
      }
    } else {
      hide IsBlocked, HandlerInstruction, SweepInstruction, Woken, Cancelled;
    }
  }

  /** In every run the lock is free at every suspension, so that no task ever waits for it or is cancelled at it. */
  lemma {:induction false} LockIsFree(events: seq<Event>)
    ensures LockOk(Run(events))
    ensures Run(events).running.None? ==> Run(events).lock.None?
    ensures forall t :: !IsBlocked(Run(events), t)
    ensures forall h <- Run(events).handlers :: Run(events).handlers[h] != Abandoned
  {
    hide LockOk, Step;
    if events == [] {
      StartIsExact();
    } else {
      LockIsFree(events[..|events| - 1]);
      StepKeepsLock(Run(events[..|events| - 1]), events[|events| - 1]);
    }
    assert Holder(Run(events)) == Run(events).lock by {
      HolderHolds(Run(events));
    }
    NobodyBlocked(Run(events));
  }

  lemma HolderHolds(l: Loop)
    requires LockOk(l)
    ensures Holder(l) == l.lock
  {
  }

  /** How many instructions the running task has before it suspends, serves or ends. */
  function InstructionsLeft(l: Loop): nat {
    match l.running
    case None => 0
    case Some(Handler(h)) =>
      if At(l, h, Entering) || At(l, h, Leaving) then 3
      else if At(l, h, Adding) || At(l, h, Discarding) then 2
      else if At(l, h, Added) || At(l, h, Discarded) then 1
      else 0
    case Some(Sweeper(s)) =>
      if SweepAt(l, s, Asking) then 3 else if SweepAt(l, s, Taking) then 2 else if SweepAt(l, s, Taken) then 1 else 0
  }

  lemma HandlerPasses(l: Loop, h: nat)
    requires LockOk(l) && l.running == Some(Handler(h)) && InstructionsLeft(l) > 0
    ensures InstructionsLeft(HandlerInstruction(l, h)) == InstructionsLeft(l) - 1
  {
    NobodyBlocked(l);
    hide LockOk, SomeBlocked;
  }

  lemma SweepPasses(l: Loop, s: nat)
    requires LockOk(l) && l.running == Some(Sweeper(s)) && InstructionsLeft(l) > 0
    ensures InstructionsLeft(SweepInstruction(l, s)) == InstructionsLeft(l) - 1
  {
    NobodyBlocked(l);
    hide LockOk, SomeBlocked;
  }

  lemma NoneLeft(l: Loop)
    requires LockOk(l) && InstructionsLeft(l) == 0
    ensures l.lock.None? && (l.running.Some? ==> l.running.value.Handler? && At(l, l.running.value.h, Serving))
  {
  }

  /** Acquiring never suspends: whoever asks for the lock is through with it three instructions later. */
  lemma LockIsPassedThrough(events: seq<Event>)
    ensures var l := Run(events);
            if InstructionsLeft(l) > 0 then InstructionsLeft(Run(events + [Instruction])) == InstructionsLeft(l) - 1
            else l.lock.None? && (l.running.Some? ==> l.running.value.Handler? && At(l, l.running.value.h, Serving))
  {
    var l := Run(events);
    LockIsFree(events);
    assert (events + [Instruction])[..|events|] == events;
    hide LockOk, HandlerInstruction, SweepInstruction;
    if InstructionsLeft(l) == 0 {
      NoneLeft(l);
    } else if l.running.value.Handler? {
      HandlerPasses(l, l.running.value.h);
    } else {
      SweepPasses(l, l.running.value.s);
    }
  }

  // ---------- The set ----------

  /** The handler has put its service into the set and has not taken it out again. */
  predicate Holds(l: Loop, h: nat) {
    h in l.handlers && l.handlers[h] in {Added, Serving, Leaving, BlockedOut, Discarding, Abandoned}
  }

  /** It has not put it in yet. */
  predicate Early(l: Loop, h: nat) {
    h !in l.handlers || l.handlers[h] in {Entering, BlockedIn, Adding}
  }

  predicate TakenBy(l: Loop, s: nat, h: nat) {
    s in l.sweeps && h in l.sweeps[s].taken
  }

  predicate Swept(l: Loop, h: nat) {
    exists s <- l.sweeps :: TakenBy(l, s, h)
  }

  /** The set is exactly the services registered and neither unregistered nor swept. */
  ghost predicate SetIsExact(l: Loop) {
    forall h: nat :: h in l.active <==> Holds(l, h) && !Swept(l, h)
  }

  ghost predicate TakenOnce(l: Loop) {
    && (forall s, t, h :: TakenBy(l, s, h) && TakenBy(l, t, h) ==> s == t)
    && (forall s, h :: TakenBy(l, s, h) ==> !Early(l, h))
  }

  /** A sweep has awaited the shutdown of the services it took and no longer waits for, each once. */
  ghost predicate StopsMatch(l: Loop) {
    && (forall s, h :: Stop(s, h) in l.stops <==> TakenBy(l, s, h) && h !in l.sweeps[s].pending)
    && (forall i, j :: 0 <= i < j < |l.stops| ==> l.stops[i] != l.stops[j])
    && (forall s <- l.sweeps :: SweepOk(l.sweeps[s]))
  }

  predicate SweepOk(sweep: Sweep) {
    && sweep.pending <= sweep.taken
    && (sweep.stage in {Asking, Blocked, Taking} ==> sweep.taken == {})
    && (sweep.stage == Taken ==> sweep.pending == sweep.taken)
    && (sweep.stage == Finished ==> sweep.pending == {})
  }

  lemma SameSwept(l: Loop, l': Loop)
    requires forall s, h :: TakenBy(l', s, h) <==> TakenBy(l, s, h)
    ensures forall h :: Swept(l', h) <==> Swept(l, h)
  {
    forall h: nat ensures Swept(l', h) <==> Swept(l, h) {
      if s :| s in l.sweeps && TakenBy(l, s, h) {
        assert TakenBy(l', s, h);
      }
      if s :| s in l'.sweeps && TakenBy(l', s, h) {
        assert TakenBy(l, s, h);
      }
    }
  }

  /** One handler moves: what it puts in, keeps in and takes out is what the set then shows of it. */
  lemma HandlerMoves(l: Loop, l': Loop, h: nat)
    requires SetIsExact(l) && TakenOnce(l) && l'.sweeps == l.sweeps
    requires h in l'.handlers && l'.handlers == l.handlers[h := l'.handlers[h]]
    requires forall g :: g != h ==> (g in l'.active <==> g in l.active)
    requires h in l'.active <==> Holds(l', h) && (Holds(l, h) ==> h in l.active)
    requires (Early(l', h) ==> Early(l, h)) && (Holds(l', h) && !Holds(l, h) ==> Early(l, h))
    ensures SetIsExact(l') && TakenOnce(l')
  {
    assert forall s, g :: TakenBy(l', s, g) <==> TakenBy(l, s, g);
    SameSwept(l, l');
    assert Swept(l, h) ==> !Early(l, h);
    hide Swept, TakenBy;
    forall g: nat ensures g in l'.active <==> Holds(l', g) && !Swept(l', g) {
      assert g in l.active <==> Holds(l, g) && !Swept(l, g);
      assert g != h ==> (Holds(l', g) <==> Holds(l, g));
    }
  }

  /** A sweep takes all there is. */
  lemma SweepTakes(l: Loop, l': Loop, s: nat)
    requires SetIsExact(l) && TakenOnce(l) && l'.handlers == l.handlers && l'.active == {}
    requires s in l.sweeps && l.sweeps[s].taken == {}
    requires s in l'.sweeps && l'.sweeps == l.sweeps[s := l'.sweeps[s]] && l'.sweeps[s].taken == l.active
    ensures SetIsExact(l') && TakenOnce(l')
  {
    forall t, h ensures TakenBy(l', t, h) <==> if t == s then h in l.active else TakenBy(l, t, h) {}
    forall h: nat ensures Swept(l', h) <==> Swept(l, h) || h in l.active {
      if t :| t in l.sweeps && TakenBy(l, t, h) {
        assert TakenBy(l', t, h);
      }
      if t :| t in l'.sweeps && TakenBy(l', t, h) {
        assert t != s ==> TakenBy(l, t, h);
      }
      if h in l.active {
        assert TakenBy(l', s, h);
      }
    }
  }

  /** Nothing is taken or put in. */
  lemma SweepMoves(l: Loop, l': Loop)
    requires SetIsExact(l) && TakenOnce(l) && l'.handlers == l.handlers && l'.active == l.active
    requires forall s, h :: TakenBy(l', s, h) <==> TakenBy(l, s, h)
    ensures SetIsExact(l') && TakenOnce(l')
  {
    SameSwept(l, l');
    hide Swept, TakenBy;
  }

  /** The handler a step moves, if it moves one. */
  function Moved(l: Loop, e: Event): Option<nat> {
    match e
    case Connect(h) => Some(h)
    case ServiceEnds(h, _) => Some(h)
    case Wake(t) => if t.Handler? then Some(t.h) else None
    case Cancel(t) => if t.Handler? then Some(t.h) else None
    case Instruction => if l.running.Some? && l.running.value.Handler? then Some(l.running.value.h) else None
    case _ => None
  }

  lemma HandlerStepKeepsSet(l: Loop, e: Event)
    requires SetIsExact(l) && TakenOnce(l) && Moved(l, e).Some?
    ensures SetIsExact(Step(l, e)) && TakenOnce(Step(l, e))
  {
    assert Moved(l, e).value in l.active ==> Holds(l, Moved(l, e).value);
    hide SetIsExact, TakenOnce, CanAcquire;
    if Step(l, e) != l {
      HandlerMoves(l, Step(l, e), Moved(l, e).value);
    }
  }

  lemma SweepStepKeepsSet(l: Loop, e: Event)
    requires SetIsExact(l) && TakenOnce(l) && StopsMatch(l) && Moved(l, e).None?
    ensures SetIsExact(Step(l, e)) && TakenOnce(Step(l, e))
  {
    hide SetIsExact, TakenOnce, CanAcquire;
    if e.Instruction? && l.running.Some? && SweepAt(l, l.running.value.s, Taking) {
      SweepTakes(l, Step(l, e), l.running.value.s);
    } else {
      SweepMoves(l, Step(l, e));
    }
  }

  lemma StopsUnmoved(l: Loop, l': Loop)
    requires StopsMatch(l) && l'.stops == l.stops
    requires forall s, h ::
               (TakenBy(l', s, h) && h !in l'.sweeps[s].pending) == (TakenBy(l, s, h) && h !in l.sweeps[s].pending)
    requires forall s <- l'.sweeps :: SweepOk(l'.sweeps[s])
    ensures StopsMatch(l')
  {
    hide TakenBy, SweepOk;
  }

  lemma StopRecorded(l: Loop, s: nat, h: nat, ending: Ending)
    requires StopsMatch(l) && l.running.None? && SweepAt(l, s, Stopping) && h in l.sweeps[s].pending
    ensures StopsMatch(Step(l, ShutdownEnds(s, h, ending)))
  {
    var l' := Step(l, ShutdownEnds(s, h, ending));
    assert TakenBy(l, s, h) && Stop(s, h) !in l.stops;
    forall t, g ensures Stop(t, g) in l'.stops <==> TakenBy(l', t, g) && g !in l'.sweeps[t].pending {
      assert Stop(t, g) in l'.stops <==> Stop(t, g) in l.stops || Stop(t, g) == Stop(s, h);
      assert TakenBy(l', t, g) <==> TakenBy(l, t, g);
    }
  }

  lemma StepKeepsStops(l: Loop, e: Event)
    requires StopsMatch(l)
    ensures StopsMatch(Step(l, e))
  {
    if e.ShutdownEnds? && l.running.None? && SweepAt(l, e.sweep, Stopping) && e.service in l.sweeps[e.sweep].pending {
      StopRecorded(l, e.sweep, e.service, e.ending);
    } else {
      hide CanAcquire;
      StopsUnmoved(l, Step(l, e));
    }
  }

  /** What holds after any events whatever. */
  lemma {:induction false} RunIsExact(events: seq<Event>)
    ensures SetIsExact(Run(events)) && TakenOnce(Run(events)) && StopsMatch(Run(events))
  {
    hide SetIsExact, TakenOnce, StopsMatch, Step;
    if events == [] {
      StartIsExact();
    } else {
      var l, e := Run(events[..|events| - 1]), events[|events| - 1];
      RunIsExact(events[..|events| - 1]);
      StepKeepsStops(l, e);
      if Moved(l, e).Some? {
        HandlerStepKeepsSet(l, e);
      } else {
        SweepStepKeepsSet(l, e);
      }
    }
  }

  lemma StartIsExact()
    ensures LockOk(START) && SetIsExact(START) && TakenOnce(START) && StopsMatch(START)
  {
  }

  // ---------- What that means for the services ----------

  /** No service is shut down twice, by one sweep or by two; a finished sweep has shut down all it took. */
  lemma EachShutDownOnce(events: seq<Event>)
    ensures var l := Run(events);
            && (forall i, j :: 0 <= i < j < |l.stops| ==> l.stops[i].service != l.stops[j].service)
            && (forall s, h :: SweepAt(l, s, Finished) && h in l.sweeps[s].taken ==> Stop(s, h) in l.stops)
            && (forall stop <- l.stops :: stop.service !in l.active)
  {
    RunIsExact(events);
    var l := Run(events);
    hide Run;
    forall i, j | 0 <= i < j < |l.stops| ensures l.stops[i].service != l.stops[j].service {
      var a, b := l.stops[i], l.stops[j];
      assert Stop(a.sweep, a.service) in l.stops && Stop(b.sweep, b.service) in l.stops;
      assert TakenBy(l, a.sweep, a.service) && TakenBy(l, b.sweep, b.service);
    }
    forall stop | stop in l.stops ensures stop.service !in l.active {
      assert Stop(stop.sweep, stop.service) in l.stops;
      assert TakenBy(l, stop.sweep, stop.service);
    }
  }

  /** No handler is running, serving or waiting: each has returned, raised or been cancelled. */
  predicate AllEnded(l: Loop) {
    forall h <- l.handlers :: l.handlers[h] in {Ended, Abandoned}
  }

  /**
    In every run the set is empty once every handler has ended, whatever the services, the sweeps and the
    cancellations did.
   */
  lemma EmptyAtTheEnd(events: seq<Event>)
    requires AllEnded(Run(events))
    ensures Run(events).active == {}
  {
    RunIsExact(events);
    LockIsFree(events);
    var l := Run(events);
    hide Run, Swept;
    assert forall h :: h !in l.active;
  }

  /** And before that it holds nobody but handlers that have not ended. */
  lemma OnlyLiveServices(events: seq<Event>)
    ensures forall h <- Run(events).active ::
              h in Run(events).handlers && Run(events).handlers[h] !in {Ended, Abandoned}
  {
    RunIsExact(events);
    LockIsFree(events);
    var l := Run(events);
    hide Run, Swept;
  }

  // ---------- Progress ----------

  /** Three instructions. */
  const THROUGH: seq<Event> := [Instruction, Instruction, Instruction]

  lemma RunThrough(events: seq<Event>, e: Event)
    ensures Run(events + [e] + THROUGH)
         == Step(Step(Step(Step(Run(events), e), Instruction), Instruction), Instruction)
  {
    hide Step;
    var a := events + [e];
    var all := a + THROUGH;
    assert all[..|a| + 3] == all && all[..|a| + 2] == a + [Instruction, Instruction];
    assert all[..|a| + 2][..|a| + 1] == a + [Instruction] && (a + [Instruction])[..|a|] == a && a[..|events|] == events;
    assert Run(a) == Step(Run(events), e);
    assert Run(a + [Instruction]) == Step(Run(a), Instruction);
    assert Run(all[..|a| + 2]) == Step(Run(a + [Instruction]), Instruction);
  }

  /** A connection on an idle loop is registered and served. */
  lemma ConnectionIsServed(events: seq<Event>, h: nat)
    requires Run(events).running.None? && h !in Run(events).handlers
    ensures var l := Run(events + [Connect(h)] + THROUGH);
            At(l, h, Serving) && h in l.active && l.lock.None?
  {
    LockIsFree(events);
    NobodyBlocked(Run(events));
    RunThrough(events, Connect(h));
    ConnectThrough(Run(events), h);
  }

  lemma ConnectThrough(l: Loop, h: nat)
    requires LockOk(l) && l.running.None? && l.lock.None? && h !in l.handlers
    ensures var l' := Step(Step(Step(Step(l, Connect(h)), Instruction), Instruction), Instruction);
            At(l', h, Serving) && h in l'.active && l'.lock.None?
  {
    var l1 := Step(l, Connect(h));
    StepKeepsLock(l, Connect(h));
    NobodyBlocked(l1);
    hide SomeBlocked, LockOk;
  }

  /** A service that ends, in whatever way, ends its handler and leaves the set. */
  lemma ServiceEndIsEnd(events: seq<Event>, h: nat, ending: Ending)
    requires Run(events).running.None? && At(Run(events), h, Serving)
    ensures var l := Run(events + [ServiceEnds(h, ending)] + THROUGH);
            At(l, h, Ended) && h !in l.active && l.running.None? && l.lock.None?
  {
    LockIsFree(events);
    RunThrough(events, ServiceEnds(h, ending));
    EndThrough(Run(events), h, ending);
  }

  lemma EndThrough(l: Loop, h: nat, ending: Ending)
    requires LockOk(l) && l.running.None? && l.lock.None? && At(l, h, Serving)
    ensures var l' := Step(Step(Step(Step(l, ServiceEnds(h, ending)), Instruction), Instruction), Instruction);
            At(l', h, Ended) && h !in l'.active && l'.running.None? && l'.lock.None?
  {
    var l1 := Step(l, ServiceEnds(h, ending));
    StepKeepsLock(l, ServiceEnds(h, ending));
    NobodyBlocked(l1);
    hide SomeBlocked, LockOk;
  }

  /** A shutdown on an idle loop takes every active service, and awaits the shutdown of each. */
  lemma ShutdownTakesAll(events: seq<Event>, s: nat)
    requires Run(events).running.None? && s !in Run(events).sweeps
    ensures var l := Run(events + [ShutdownCalled(s)] + THROUGH);
            && l.active == {} && l.running.None? && l.lock.None?
            && s in l.sweeps && l.sweeps[s].taken == l.sweeps[s].pending == Run(events).active
            && l.sweeps[s].stage == if Run(events).active == {} then Finished else Stopping
  {
    LockIsFree(events);
    RunThrough(events, ShutdownCalled(s));
    SweepThrough(Run(events), s);
  }

  lemma SweepThrough(l: Loop, s: nat)
    requires LockOk(l) && l.running.None? && l.lock.None? && s !in l.sweeps
    ensures var l' := Step(Step(Step(Step(l, ShutdownCalled(s)), Instruction), Instruction), Instruction);
            && l'.active == {} && l'.running.None? && l'.lock.None?
            && s in l'.sweeps && l'.sweeps[s].taken == l'.sweeps[s].pending == l.active
            && l'.sweeps[s].stage == if l.active == {} then Finished else Stopping
  {
    var l1 := Step(l, ShutdownCalled(s));
    StepKeepsLock(l, ShutdownCalled(s));
    NobodyBlocked(l1);
    hide SomeBlocked, LockOk;
  }

  /** A shutdown that ends, in whatever way, is no longer awaited; with the last the sweep can end. */
  lemma ShutdownEndCounts(events: seq<Event>, s: nat, h: nat, ending: Ending)
    requires Run(events).running.None? && SweepAt(Run(events), s, Stopping) && h in Run(events).sweeps[s].pending
    ensures var l := Run(events + [ShutdownEnds(s, h, ending)]);
            && SweepAt(l, s, Stopping) && l.sweeps[s].pending == Run(events).sweeps[s].pending - {h}
            && Stop(s, h) in l.stops
            && (l.sweeps[s].pending == {} ==> SweepAt(Step(l, Gathered(s)), s, Finished))
  {
    assert (events + [ShutdownEnds(s, h, ending)])[..|events|] == events;
  }

  /** A cancelled sweep awaits nothing more, and what it took stays taken. */
  lemma CancelDropsSweep(events: seq<Event>, s: nat)
    requires Run(events).running.None? && SweepAt(Run(events), s, Stopping)
    ensures var l := Run(events + [Cancel(Sweeper(s))]);
            SweepAt(l, s, Dropped) && l.sweeps[s].taken == Run(events).sweeps[s].taken && l.active == Run(events).active
  {
    assert (events + [Cancel(Sweeper(s))])[..|events|] == events;
  }
}
