/** What a kill-switch task leaves behind, read off the outcomes of its own steps and its restaurant alone. */
module KillSwitchOutcomes {
  import opened Text
  import opened KillSwitch
  import opened KillSwitchRuns

  /** The outcomes of the task's turns since it was started. */
  function OutcomesOf(events: seq<Event>, t: nat): seq<Outcome> {
    if events == [] then []
    else
      var init, e := events[..|events| - 1], events[|events| - 1];
      OutcomesOf(init, t) + if e.Advance? && e.task == t && Started(init, t) then [e.outcome] else []
  }

  // ---------- What the outcomes say ----------

  predicate Writes(o: seq<Outcome>, i: nat) {
    i < |o| && o[i] in {Works, Fails(true)}
  }

  predicate Succeeds(o: seq<Outcome>, i: nat) {
    i < |o| && o[i] == Works
  }

  predicate Numeric(id: RawId) {
    id.Number? || (id.Other? && id.parsed.Some?)
  }

  predicate Remembers(k: Task, o: seq<Outcome>) {
    && k.done == (if |o| < STEPS then |o| else STEPS)
    && (k.userId.Some? <==> Succeeds(o, 0))
    && (k.callId.Some? <==> k.bypass.restaurant != NoId && Succeeds(o, 0) && Succeeds(o, 1))
    && (k.escalationId.Some? <==>
        k.bypass.restaurant != NoId && Succeeds(o, 0) && Succeeds(o, 1) && Succeeds(o, 3))
  }

  ghost predicate OwnsCall(s: Store, t: nat) {
    exists c :: OwnCall(s, t, c)
  }

  ghost predicate OwnsEscalation(s: Store, t: nat) {
    exists e :: OwnEscalation(s, t, e)
  }

  /** The notices of the task: an event to the dashboards, or a stored notification. */
  predicate Told(s: Store, t: nat, stored: bool) {
    exists i :: 0 <= i < |s.notices| && s.notices[i].task == t && (s.notices[i].Persisted? <==> stored)
  }

  /** What the outcomes of the task's turns make of it. */
  ghost predicate Decided(s: Store, t: nat, k: Task, o: seq<Outcome>) {
    && Remembers(k, o)
    && (OwnsCall(s, t) <==> k.bypass.restaurant != NoId && Succeeds(o, 0) && Writes(o, 1))
    && (OwnsEscalation(s, t) <==> k.bypass.restaurant != NoId && Succeeds(o, 0) && Succeeds(o, 1) && Writes(o, 3))
    && (Told(s, t, false) <==> Numeric(k.bypass.restaurant) && Writes(o, 5))
    && (Told(s, t, true) <==> Numeric(k.bypass.restaurant) && Writes(o, 6))
  }

  // ---------- One turn ----------

  lemma TurnRemembered(s: Store, k: Task, o: seq<Outcome>, x: Outcome)
    requires Remembers(k, o)
    ensures Remembers(StepTask(s, k, x), o + [x])
  {
    hide NonEmpty, UserFor;
    assert forall i :: 0 <= i < |o| ==> (o + [x])[i] == o[i];
    assert (o + [x])[|o|] == x;
  }

  /** What a turn does to the calls: adds one, marks one, or nothing. */
  lemma CallsAfterTurn(s: Store, t: nat, k: Task, x: Outcome)
    ensures var calls, done := StepStore(s, t, k, x).calls, Attempts(k) && Wrote(x);
            && (done && k.done == 1 ==> calls == s.calls[s.nextCall := NewCall(t, k)])
            && (done && k.done == 2 ==> calls == WithCallStatus(s, k.callId.value, "agent_bypassed").calls)
            && (!done || k.done !in {1, 2} ==> calls == s.calls)
  {
    hide NonEmpty, RestaurantText, RestaurantNumber, NewCall, NewEscalation, NewNotice;
  }

  lemma EscalationsAfterTurn(s: Store, t: nat, k: Task, x: Outcome)
    ensures var escalations, done := StepStore(s, t, k, x).escalations, Attempts(k) && Wrote(x);
            && (done && k.done == 3 ==> escalations == s.escalations[s.nextEscalation := NewEscalation(t, k)])
            && (done && k.done == 4 ==>
                  escalations == WithEscalationStatus(s, k.escalationId.value, "forwarded").escalations)
            && (!done || k.done !in {3, 4} ==> escalations == s.escalations)
  {
    hide NonEmpty, RestaurantText, RestaurantNumber, NewCall, NewEscalation, NewNotice;
  }

  lemma CallTurn(s: Store, t: nat, k: Task, x: Outcome)
    requires s.nextCall !in s.calls
    ensures OwnsCall(StepStore(s, t, k, x), t) <==> OwnsCall(s, t) || (k.done == 1 && Attempts(k) && Wrote(x))
  {
    var s' := StepStore(s, t, k, x);
    CallsAfterTurn(s, t, k, x);
    hide StepStore, Attempts, RestaurantText;
    assert forall c :: OwnCall(s, t, c) ==> OwnCall(s', t, c);
    if k.done == 1 && Attempts(k) && Wrote(x) {
      assert OwnCall(s', t, s.nextCall);
    } else {
      assert forall c :: OwnCall(s', t, c) ==> OwnCall(s, t, c);
    }
  }

  lemma EscalationTurn(s: Store, t: nat, k: Task, x: Outcome)
    requires s.nextEscalation !in s.escalations
    ensures OwnsEscalation(StepStore(s, t, k, x), t) <==>
            OwnsEscalation(s, t) || (k.done == 3 && Attempts(k) && Wrote(x))
  {
    var s' := StepStore(s, t, k, x);
    EscalationsAfterTurn(s, t, k, x);
    hide StepStore, Attempts, RestaurantText, NonEmpty;
    assert forall e :: OwnEscalation(s, t, e) ==> OwnEscalation(s', t, e);
    if k.done == 3 && Attempts(k) && Wrote(x) {
      assert OwnEscalation(s', t, s.nextEscalation);
    } else {
      assert forall e :: OwnEscalation(s', t, e) ==> OwnEscalation(s, t, e);
    }
  }

  lemma NoticeTurn(s: Store, t: nat, k: Task, x: Outcome, stored: bool)
    ensures Told(StepStore(s, t, k, x), t, stored) <==>
            Told(s, t, stored) || (k.done == (if stored then 6 else 5) && Attempts(k) && Wrote(x))
  {
    hide NonEmpty, WithUser, RestaurantText, NewCall, NewEscalation;
    var s' := StepStore(s, t, k, x);
    OnlyUsers(s, NonEmpty(k.bypass.callerPhone));
    if k.done >= 5 && Attempts(k) && Wrote(x) {
      var n := NewNotice(t, k);
      assert s'.notices == s.notices + [n] && s'.notices[|s.notices|] == n;
      assert n.Persisted? <==> k.done == 6;
      assert forall i :: 0 <= i < |s.notices| ==> s'.notices[i] == s.notices[i];
    } else {
      assert s'.notices == s.notices;
    }
  }

  lemma AttemptsAre(k: Task)
    ensures k.done == 1 ==> (Attempts(k) <==> k.userId.Some? && k.bypass.restaurant != NoId)
    ensures k.done == 3 ==>
              (Attempts(k) <==> k.userId.Some? && k.callId.Some? && k.bypass.restaurant != NoId)
    ensures k.done == 5 || k.done == 6 ==> (Attempts(k) <==> Numeric(k.bypass.restaurant))
  {
  }

  lemma OwnTurn(s: Store, t: nat, k: Task, o: seq<Outcome>, x: Outcome)
    requires StoreOk(s) && Decided(s, t, k, o)
    ensures Decided(StepStore(s, t, k, x), t, StepTask(s, k, x), o + [x])
  {
    assert s.nextCall !in s.calls && s.nextEscalation !in s.escalations;
    TurnRemembered(s, k, o, x);
    CallTurn(s, t, k, x);
    EscalationTurn(s, t, k, x);
    NoticeTurn(s, t, k, x, false);
    NoticeTurn(s, t, k, x, true);
    AttemptsAre(k);
    assert StepTask(s, k, x).bypass == k.bypass;
    assert forall i :: 0 <= i < |o| ==> (o + [x])[i] == o[i];
    assert (o + [x])[|o|] == x;
    hide StoreOk, OwnsCall, OwnsEscalation, Told, StepStore, StepTask, Attempts, Numeric;
  }

  lemma OthersTurn(s: Store, s': Store, author: Option<nat>, t: nat, k: Task, o: seq<Outcome>)
    requires Extends(s, s', author) && author != Some(t) && Decided(s, t, k, o)
    ensures Decided(s', t, k, o)
  {
    assert forall c :: OwnCall(s', t, c) <==> OwnCall(s, t, c);
    assert forall e :: OwnEscalation(s', t, e) <==> OwnEscalation(s, t, e);
    assert forall i :: 0 <= i < |s.notices| ==> s'.notices[i] == s.notices[i];
    hide Remembers, Numeric, Succeeds, Writes;
  }

  // ---------- Whole runs ----------

  /** Every step only extends the tables, on behalf of the task that takes a turn or of nobody. */
  lemma StepExtends(w: World, e: Event)
    requires WorldOk(w)
    ensures Extends(w.store, Step(w, e).store, if e.Advance? then Some(e.task) else None)
  {
    hide StoreOk, Extends, StepStore, StepTask, OwnersKnown, TaskOk;
    hide WithUser, WithCall, WithEscalation, WithNumber, WithCallStatus, WithEscalationStatus;
    match e {
      case Advance(u, x) =>
        NothingAdded(w.store, Some(u));
        if u in w.tasks {
          EffectExtends(w.store, u, w.tasks[u], x);
        }
      case StartTask(_, _) => NothingAdded(w.store, None);
      case OtherUser(phone) => UserAdded(w.store, phone, None);
      case OtherCall(row) => CallAdded(w.store, row.(owner := None));
      case OtherEscalation(row) => EscalationAdded(w.store, row.(owner := None));
      case OtherUserUpdate(user, phone) => NumberSet(w.store, user, phone, None);
      case OtherCallStatus(id, status) => CallStatusSet(w.store, id, status, None);
      case OtherEscalationStatus(id, status) => EscalationStatusSet(w.store, id, status, None);
    }
  }

  lemma StepDecided(w: World, e: Event, t: nat, o: seq<Outcome>)
    requires WorldOk(w) && t in w.tasks && Decided(w.store, t, w.tasks[t], o)
    ensures var w' := Step(w, e);
            && t in w'.tasks
            && Decided(w'.store, t, w'.tasks[t], if e.Advance? && e.task == t then o + [e.outcome] else o)
  {
    StepExtends(w, e);
    hide Decided, StoreOk, Extends, StepStore, StepTask, OwnersKnown, TaskOk;
    if e.Advance? && e.task == t {
      OwnTurn(w.store, t, w.tasks[t], o, e.outcome);
    } else {
      OthersTurn(w.store, Step(w, e).store, if e.Advance? then Some(e.task) else None, t, w.tasks[t], o);
    }
  }

  lemma StartDecided(w: World, t: nat, b: Bypass)
    requires WorldOk(w) && t !in w.tasks
    ensures Decided(w.store, t, Fresh(b), [])
  {
    hide StoreOk, TaskOk;
    assert forall c :: !OwnCall(w.store, t, c);
    assert forall e :: !OwnEscalation(w.store, t, e);
  }

  lemma {:induction false} RunDecided(s: Store, events: seq<Event>, t: nat)
    requires Before(s) && t in Run(s, events).tasks
    ensures Decided(Run(s, events).store, t, Run(s, events).tasks[t], OutcomesOf(events, t))
  {
    hide Decided, WorldOk, Before;
    var init, e := events[..|events| - 1], events[|events| - 1];
    var w := Run(s, init);
    BeforeIs(s);
    RunOk(s, init);
    EveryTurnIsAStep(s, init, t);
    if t in w.tasks {
      RunDecided(s, init, t);
      StepDecided(w, e, t, OutcomesOf(init, t));
      assert OutcomesOf(init, t) + [] == OutcomesOf(init, t);
    } else {
      assert e.StartTask? && e.task == t;
      NoOutcomes(init, t);
      assert OutcomesOf(events, t) == [];
      StartDecided(w, t, e.bypass);
    }
  }

  lemma BeforeIs(s: Store)
    requires Before(s)
    ensures StoreOk(s) && OwnersKnown(World(s, map[]))
  {
  }

  lemma {:induction false} NoOutcomes(events: seq<Event>, t: nat)
    requires !Started(events, t)
    ensures OutcomesOf(events, t) == []
  {
    if events != [] {
      var init := events[..|events| - 1];
      assert forall e <- init :: e in events;
      NoOutcomes(init, t);
    }
  }

  /**
    In every run: what a task knows, owns and has told is what the outcomes of its own turns and its restaurant say,
    whatever the other tasks and other code did in between.
   */
  lemma OutcomesDecide(s: Store, events: seq<Event>, t: nat)
    requires Before(s) && t in Run(s, events).tasks
    ensures var s', k, o := Run(s, events).store, Run(s, events).tasks[t], OutcomesOf(events, t);
            var worked := (i: nat) => i < |o| && o[i] == Works;
            var wrote := (i: nat) => i < |o| && (o[i] == Works || o[i] == Fails(true));
            var id := k.bypass.restaurant;
            && k.done == (if |o| < 7 then |o| else 7)
            && (k.userId.Some? <==> worked(0))
            && ((exists c :: OwnCall(s', t, c)) <==> id != NoId && worked(0) && wrote(1))
            && (k.callId.Some? <==> id != NoId && worked(0) && worked(1))
            && ((exists e :: OwnEscalation(s', t, e)) <==> id != NoId && worked(0) && worked(1) && wrote(3))
            && (k.escalationId.Some? <==> id != NoId && worked(0) && worked(1) && worked(3))
            && ((exists i :: 0 <= i < |s'.notices| && s'.notices[i].task == t && s'.notices[i].Redirected?) <==>
                (id.Number? || (id.Other? && id.parsed.Some?)) && wrote(5))
            && ((exists i :: 0 <= i < |s'.notices| && s'.notices[i].task == t && s'.notices[i].Persisted?) <==>
                (id.Number? || (id.Other? && id.parsed.Some?)) && wrote(6))
  {
    RunDecided(s, events, t);
    hide Run, OutcomesOf;
    var s' := Run(s, events).store;
    assert OwnsCall(s', t) <==> exists c :: OwnCall(s', t, c);
    assert OwnsEscalation(s', t) <==> exists e :: OwnEscalation(s', t, e);
  }

  // ---------- Statuses ----------

  /** The statuses of what a task has made, other code aside. */
  predicate Marked(s: Store, t: nat, o: seq<Outcome>, calls: bool, id: nat) {
    if calls then
      OwnCall(s, t, id) ==>
        s.calls[id].status == if Succeeds(o, 1) && Writes(o, 2) then "agent_bypassed" else "in_progress"
    else
      OwnEscalation(s, t, id) ==>
        s.escalations[id].status == if Succeeds(o, 3) && Writes(o, 4) then "forwarded" else "raised"
  }

  lemma TurnMarksCall(s: Store, t: nat, k: Task, o: seq<Outcome>, x: Outcome, c: nat)
    requires StoreOk(s) && TaskOk(s, t, k) && Decided(s, t, k, o) && Marked(s, t, o, true, c)
    ensures Marked(StepStore(s, t, k, x), t, o + [x], true, c)
  {
    hide NonEmpty, RestaurantText, NoticesOk, EscalationsOk, UserOk, Told, OwnsEscalation;
    CallsAfterTurn(s, t, k, x);
    assert s.nextCall !in s.calls;
    assert OwnCall(s, t, c) ==> OwnsCall(s, t);
    assert forall i :: 0 <= i < |o| ==> (o + [x])[i] == o[i];
    assert (o + [x])[|o|] == x;
    AttemptsAre(k);
    hide StepStore, StoreOk, Numeric;
  }

  lemma TurnMarksEscalation(s: Store, t: nat, k: Task, o: seq<Outcome>, x: Outcome, e: nat)
    requires StoreOk(s) && TaskOk(s, t, k) && Decided(s, t, k, o) && Marked(s, t, o, false, e)
    ensures Marked(StepStore(s, t, k, x), t, o + [x], false, e)
  {
    hide NonEmpty, RestaurantText, NoticesOk, CallsOk, UserOk, Told, OwnsCall;
    EscalationsAfterTurn(s, t, k, x);
    assert s.nextEscalation !in s.escalations;
    assert OwnEscalation(s, t, e) ==> OwnsEscalation(s, t);
    assert forall i :: 0 <= i < |o| ==> (o + [x])[i] == o[i];
    assert (o + [x])[|o|] == x;
    AttemptsAre(k);
    hide StepStore, StoreOk, Numeric;
  }

  lemma RowsOfOthersStay(s: Store, s': Store, author: Option<nat>, t: nat, id: nat)
    requires Extends(s, s', author) && author != Some(t)
    ensures OwnCall(s', t, id) ==> OwnCall(s, t, id)
    ensures OwnEscalation(s', t, id) ==> OwnEscalation(s, t, id)
  {
  }

  lemma NotYetOwner(w: World, t: nat, id: nat)
    requires OwnersKnown(w) && t !in w.tasks
    ensures !OwnCall(w.store, t, id) && !OwnEscalation(w.store, t, id)
  {
  }

  lemma {:induction false} RunMarked(s: Store, events: seq<Event>, t: nat, calls: bool, id: nat)
    requires Before(s)
    requires forall e <- events ::
               if calls then !(e.OtherCallStatus? && e.id == id) else !(e.OtherEscalationStatus? && e.id == id)
    ensures Marked(Run(s, events).store, t, OutcomesOf(events, t), calls, id)
  {
    hide Step, StoreOk, TaskOk, Decided, Extends, OwnersKnown;
    BeforeIs(s);
    if events == [] {
      NotYetOwner(World(s, map[]), t, id);
    } else {
      var init, e := events[..|events| - 1], events[|events| - 1];
      var w := Run(s, init);
      assert e in events && forall x <- init :: x in events;
      RunMarked(s, init, t, calls, id);
      RunOk(s, init);
      EveryTurnIsAStep(s, init, t);
      StepExtends(w, e);
      if e.Advance? && e.task == t {
        OwnTurnMarks(s, init, e.outcome, t, calls, id);
      } else {
        MarksOwnRows(s, init, e);
        RowsOfOthersStay(w.store, Step(w, e).store, if e.Advance? then Some(e.task) else None, t, id);
        assert OutcomesOf(events, t) == OutcomesOf(init, t);
      }
    }
  }

  lemma OwnTurnMarks(s: Store, init: seq<Event>, x: Outcome, t: nat, calls: bool, id: nat)
    requires Before(s) && Marked(Run(s, init).store, t, OutcomesOf(init, t), calls, id)
    ensures Marked(Step(Run(s, init), Advance(t, x)).store, t,
                   OutcomesOf(init, t) + if Started(init, t) then [x] else [], calls, id)
  {
    hide Decided, Marked, StepStore, StepTask, StoreOk, TaskOk, OwnersKnown;
    var w := Run(s, init);
    RunOk(s, init);
    EveryTurnIsAStep(s, init, t);
    if t in w.tasks {
      RunDecided(s, init, t);
      if calls {
        TurnMarksCall(w.store, t, w.tasks[t], OutcomesOf(init, t), x, id);
      } else {
        TurnMarksEscalation(w.store, t, w.tasks[t], OutcomesOf(init, t), x, id);
      }
    } else {
      assert OutcomesOf(init, t) + [] == OutcomesOf(init, t);
    }
  }

  /**
    In every run: a task's call is "agent_bypassed" exactly when its second step worked and its third wrote, and its
    escalation "forwarded" exactly when its fourth worked and its fifth wrote, unless other code set that status.
   */
  lemma OutcomesMark(s: Store, events: seq<Event>, t: nat)
    requires Before(s)
    ensures var s', o := Run(s, events).store, OutcomesOf(events, t);
            var worked := (i: nat) => i < |o| && o[i] == Works;
            var wrote := (i: nat) => i < |o| && (o[i] == Works || o[i] == Fails(true));
            && (forall c :: OwnCall(s', t, c) && (forall e <- events :: !(e.OtherCallStatus? && e.id == c)) ==>
                  s'.calls[c].status == if worked(1) && wrote(2) then "agent_bypassed" else "in_progress")
            && (forall x ::
                  OwnEscalation(s', t, x) && (forall e <- events :: !(e.OtherEscalationStatus? && e.id == x)) ==>
                  s'.escalations[x].status == if worked(3) && wrote(4) then "forwarded" else "raised")
  {
    hide Run, OutcomesOf;
    var s' := Run(s, events).store;
    forall c | OwnCall(s', t, c) && (forall e <- events :: !(e.OtherCallStatus? && e.id == c))
      ensures Marked(s', t, OutcomesOf(events, t), true, c)
    {
      RunMarked(s, events, t, true, c);
    }
    forall x | OwnEscalation(s', t, x) && (forall e <- events :: !(e.OtherEscalationStatus? && e.id == x))
      ensures Marked(s', t, OutcomesOf(events, t), false, x)
    {
      RunMarked(s, events, t, false, x);
    }
  }

  // ---------- What is written ----------

  /** What the restaurant's id is written as, and read as. */
  lemma RestaurantIds(id: RawId)
    ensures RestaurantText(id)
         == match id
            case NoId => None
            case Number(n) => Some(IntText(n))
            case Other(text, _) => Some(text)
    ensures RestaurantNumber(id) == if id.Number? then Some(id.n) else if id.Other? then id.parsed else None
  {
  }

  /** The request a task was started with is the one it works on. */
  lemma {:induction false} FirstStartCounts(s: Store, events: seq<Event>, t: nat, i: nat)
    requires i < |events| && events[i].StartTask? && events[i].task == t
    requires forall j :: 0 <= j < i ==> !(events[j].StartTask? && events[j].task == t)
    ensures t in Run(s, events).tasks && Run(s, events).tasks[t].bypass == events[i].bypass
  {
    hide StepStore, Attempts, UserFor, NonEmpty;
    var init := events[..|events| - 1];
    if i < |events| - 1 {
      FirstStartCounts(s, init, t, i);
    } else {
      EveryTurnIsAStep(s, init, t);
      assert forall e <- init :: !(e.StartTask? && e.task == t);
    }
  }

  /** What a task tells names its restaurant's number, its call and its escalation, as far as it has them by then. */
  lemma NoticesName(s: Store, events: seq<Event>, t: nat, i: nat)
    requires Before(s) && t in Run(s, events).tasks
    requires i < |Run(s, events).store.notices| && Run(s, events).store.notices[i].task == t
    ensures var n, k := Run(s, events).store.notices[i], Run(s, events).tasks[t];
            && (|| k.bypass.restaurant == Number(n.restaurant)
                || (k.bypass.restaurant.Other? && k.bypass.restaurant.parsed == Some(n.restaurant)))
            && (n.Redirected? ==> n.callId == k.callId)
            && (n.Persisted? ==> n.escalationId == k.escalationId
                                 && n.entity == if k.escalationId.Some? then k.escalationId else k.callId)
  {
    RunOk(s, events);
    var w := Run(s, events);
    hide Run, StoreOk, OwnersKnown;
    assert NoticesOk(w.store, t, w.tasks[t]) by {
      assert TaskOk(w.store, t, w.tasks[t]);
    }
    hide TaskOk;
  }
}
