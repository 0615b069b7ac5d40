/** Any number of kill-switch tasks at once, interleaved at their awaits, beside whatever else writes to the tables. */
module KillSwitchRuns {
  import opened Text
  import opened KillSwitch

  datatype World = World(store: Store, tasks: map<nat, Task>)

  /**
    A task starts; a task takes its next step; other code adds a user, a call or an escalation of nobody's here,
    changes a user's number, or changes the status of any call or escalation.
   */
  datatype Event =
    | StartTask(task: nat, bypass: Bypass)
    | Advance(task: nat, outcome: Outcome)
    | OtherUser(phone: Option<string>)
    | OtherCall(call: CallRow)
    | OtherEscalation(escalation: EscalationRow)
    | OtherUserUpdate(user: nat, phone: Option<string>)
    | OtherCallStatus(id: nat, status: string)
    | OtherEscalationStatus(id: nat, status: string)

  function Step(w: World, e: Event): World {
    match e
    case StartTask(t, b) => if t in w.tasks then w else w.(tasks := w.tasks[t := Fresh(b)])
    case Advance(t, o) =>
      if t !in w.tasks then w
      else World(StepStore(w.store, t, w.tasks[t], o), w.tasks[t := StepTask(w.store, w.tasks[t], o)])
    case OtherUser(phone) => w.(store := WithUser(w.store, phone))
    case OtherCall(row) => w.(store := WithCall(w.store, row.(owner := None)))
    case OtherEscalation(row) => w.(store := WithEscalation(w.store, row.(owner := None)))
    case OtherUserUpdate(user, phone) => w.(store := WithNumber(w.store, user, phone))
    case OtherCallStatus(id, status) => w.(store := WithCallStatus(w.store, id, status))
    case OtherEscalationStatus(id, status) => w.(store := WithEscalationStatus(w.store, id, status))
  }

  function Run(s: Store, events: seq<Event>): World {
    if events == [] then World(s, map[]) else Step(Run(s, events[..|events| - 1]), events[|events| - 1])
  }

  // ---------- What a store keeps ----------

  /** Ids are below their counters, and a number belongs to one user. */
  predicate StoreOk(s: Store) {
    && (forall u <- s.users :: u < s.nextUser)
    && (forall c <- s.calls :: c < s.nextCall)
    && (forall e <- s.escalations :: e < s.nextEscalation)
    && (forall p <- s.byPhone :: s.byPhone[p] in s.users && s.users[s.byPhone[p]] == Some(p))
    && (forall u <- s.users :: s.users[u].Some? ==> s.users[u].value in s.byPhone && s.byPhone[s.users[u].value] == u)
  }

  /** Rows stay, but for numbers and statuses; new ones belong to `author`, and so do the new notices. */
  predicate Extends(s: Store, s': Store, author: Option<nat>) {
    && (forall u <- s.users :: u in s'.users)
    && (forall c <- s.calls :: c in s'.calls && s'.calls[c] == s.calls[c].(status := s'.calls[c].status))
    && (forall e <- s.escalations :: e in s'.escalations
                                     && s'.escalations[e] == s.escalations[e].(status := s'.escalations[e].status))
    && (forall c <- s'.calls :: c in s.calls || s'.calls[c].owner == author)
    && (forall e <- s'.escalations :: e in s.escalations || s'.escalations[e].owner == author)
    && |s.notices| <= |s'.notices| && s'.notices[..|s.notices|] == s.notices
    && (forall i :: |s.notices| <= i < |s'.notices| ==> Some(s'.notices[i].task) == author)
  }

  // ---------- What holds of each task ----------

  predicate OwnCall(s: Store, t: nat, c: nat) {
    c in s.calls && s.calls[c].owner == Some(t)
  }

  predicate OwnEscalation(s: Store, t: nat, e: nat) {
    e in s.escalations && s.escalations[e].owner == Some(t)
  }

  /** The user is there. */
  predicate UserOk(s: Store, k: Task) {
    k.userId.Some? ==> k.userId.value in s.users && k.done >= 1
  }

  /** The calls of the task: none before its second step, at most one after, for its user; `callId` names it. */
  ghost predicate CallsOk(s: Store, t: nat, k: Task) {
    && (k.done <= 1 ==> forall c :: !OwnCall(s, t, c))
    && (forall c, d :: OwnCall(s, t, c) && OwnCall(s, t, d) ==> c == d)
    && (forall c :: OwnCall(s, t, c) ==>
          && k.userId == Some(s.calls[c].user)
          && s.calls[c].restaurant == RestaurantText(k.bypass.restaurant) && s.calls[c].sid == k.bypass.callSid)
    && (k.callId.Some? ==> OwnCall(s, t, k.callId.value) && k.done >= 2)
  }

  /** The escalations likewise, for its call and its user. */
  ghost predicate EscalationsOk(s: Store, t: nat, k: Task) {
    && (k.done <= 3 ==> forall e :: !OwnEscalation(s, t, e))
    && (forall e, f :: OwnEscalation(s, t, e) && OwnEscalation(s, t, f) ==> e == f)
    && (forall e :: OwnEscalation(s, t, e) ==>
          && k.userId == Some(s.escalations[e].user) && k.callId == Some(s.escalations[e].callId)
          && s.escalations[e].restaurant == RestaurantText(k.bypass.restaurant)
          && s.escalations[e].sid == k.bypass.callSid
          && s.escalations[e].callerPhone == k.bypass.callerPhone
          && s.escalations[e].forwardTo == NonEmpty(Some(Strip(k.bypass.escalationPhone))))
    && (k.escalationId.Some? ==> OwnEscalation(s, t, k.escalationId.value) && k.done >= 4)
  }

  /** One notice of each kind, naming what the task made. */
  predicate NoticesOk(s: Store, t: nat, k: Task) {
    && (forall i :: 0 <= i < |s.notices| && s.notices[i].task == t ==>
          Some(s.notices[i].restaurant) == RestaurantNumber(k.bypass.restaurant))
    && (forall i :: 0 <= i < |s.notices| && s.notices[i].task == t ==>
          match s.notices[i]
          case Redirected(_, _, callId) => k.done >= 6 && callId == k.callId
          case Persisted(_, _, escalationId, entity) =>
            && k.done >= 7 && escalationId == k.escalationId
            && entity == if escalationId.Some? then escalationId else k.callId)
    && (forall i, j :: 0 <= i < j < |s.notices| && s.notices[i].task == t && s.notices[j].task == t ==>
          s.notices[i].Redirected? && s.notices[j].Persisted?)
  }

  ghost predicate TaskOk(s: Store, t: nat, k: Task) {
    UserOk(s, k) && CallsOk(s, t, k) && EscalationsOk(s, t, k) && NoticesOk(s, t, k)
  }

  /** Rows and notices of tasks belong to tasks that were started. */
  predicate OwnersKnown(w: World) {
    && (forall c <- w.store.calls :: w.store.calls[c].owner.Some? ==> w.store.calls[c].owner.value in w.tasks)
    && (forall e <- w.store.escalations :: w.store.escalations[e].owner.Some? ==>
          w.store.escalations[e].owner.value in w.tasks)
    && (forall i :: 0 <= i < |w.store.notices| ==> w.store.notices[i].task in w.tasks)
  }

  ghost predicate WorldOk(w: World) {
    StoreOk(w.store) && OwnersKnown(w) && forall t <- w.tasks :: TaskOk(w.store, t, w.tasks[t])
  }

  // ---------- Steps ----------

  lemma UserStored(s: Store, phone: Option<string>)
    requires StoreOk(s)
    ensures var s' := WithUser(s, phone);
            StoreOk(s') && UserFor(s, phone) in s'.users && s'.users[UserFor(s, phone)] == phone
  {
  }

  lemma UserAdded(s: Store, phone: Option<string>, author: Option<nat>)
    requires StoreOk(s)
    ensures var s' := WithUser(s, phone);
            && StoreOk(s') && Extends(s, s', author)
            && UserFor(s, phone) in s'.users && s'.users[UserFor(s, phone)] == phone
  {
    UserStored(s, phone);
    assert s.nextUser !in s.users;
    hide StoreOk, UserFor;
  }

  lemma CallAdded(s: Store, row: CallRow)
    requires StoreOk(s)
    ensures StoreOk(WithCall(s, row)) && Extends(s, WithCall(s, row), row.owner)
  {
  }

  lemma EscalationAdded(s: Store, row: EscalationRow)
    requires StoreOk(s)
    ensures StoreOk(WithEscalation(s, row)) && Extends(s, WithEscalation(s, row), row.owner)
  {
  }

  lemma CallStatusSet(s: Store, id: nat, status: string, author: Option<nat>)
    requires StoreOk(s)
    ensures StoreOk(WithCallStatus(s, id, status)) && Extends(s, WithCallStatus(s, id, status), author)
  {
  }

  lemma EscalationStatusSet(s: Store, id: nat, status: string, author: Option<nat>)
    requires StoreOk(s)
    ensures StoreOk(WithEscalationStatus(s, id, status)) && Extends(s, WithEscalationStatus(s, id, status), author)
  {
  }

  lemma NumberSet(s: Store, user: nat, phone: Option<string>, author: Option<nat>)
    requires StoreOk(s)
    ensures StoreOk(WithNumber(s, user, phone)) && Extends(s, WithNumber(s, user, phone), author)
  {
  }

  lemma NoticeAdded(s: Store, n: Notice)
    requires StoreOk(s)
    ensures var s' := s.(notices := s.notices + [n]); StoreOk(s') && Extends(s, s', Some(n.task))
  {
  }

  lemma NothingAdded(s: Store, author: Option<nat>)
    ensures Extends(s, s, author)
  {
  }

  lemma EffectExtends(s: Store, t: nat, k: Task, o: Outcome)
    requires StoreOk(s)
    ensures StoreOk(StepStore(s, t, k, o)) && Extends(s, StepStore(s, t, k, o), Some(t))
  {
    hide StoreOk, Extends, WithUser, WithCall, WithEscalation, WithCallStatus, WithEscalationStatus;
    hide RestaurantText, RestaurantNumber, NonEmpty;
    NothingAdded(s, Some(t));
    if Attempts(k) && Wrote(o) {
      match k.done {
        case 0 => UserAdded(s, NonEmpty(k.bypass.callerPhone), Some(t));
        case 1 => CallAdded(s, NewCall(t, k));
        case 2 => CallStatusSet(s, k.callId.value, "agent_bypassed", Some(t));
        case 3 => EscalationAdded(s, NewEscalation(t, k));
        case 4 => EscalationStatusSet(s, k.escalationId.value, "forwarded", Some(t));
        case _ => NoticeAdded(s, NewNotice(t, k));
      }
    }
  }

  /** What other code, or another task, does leaves a task's facts alone. */
  lemma OthersUnaffected(s: Store, s': Store, author: Option<nat>, t: nat, k: Task)
    requires Extends(s, s', author) && author != Some(t) && TaskOk(s, t, k)
    ensures TaskOk(s', t, k)
  {
    assert forall c :: OwnCall(s', t, c) <==> OwnCall(s, t, c);
    assert forall e :: OwnEscalation(s', t, e) <==> OwnEscalation(s, t, e);
    assert forall i :: 0 <= i < |s'.notices| && s'.notices[i].task == t ==>
             i < |s.notices| && s'.notices[i] == s.notices[i];
  }

  /** The task's facts about its calls after a step that adds none. */
  lemma CallsKept(s: Store, s': Store, t: nat, k: Task, k': Task)
    requires CallsOk(s, t, k) && k'.bypass == k.bypass && k'.callId == k.callId
    requires k.done <= k'.done && (k.done <= 1 ==> k'.done <= 1) && (k'.userId == k.userId || k.done <= 1)
    requires forall c <- s.calls :: c in s'.calls && s'.calls[c] == s.calls[c].(status := s'.calls[c].status)
    requires forall c <- s'.calls :: c in s.calls
    ensures CallsOk(s', t, k')
  {
    assert forall c :: OwnCall(s', t, c) <==> OwnCall(s, t, c);
  }

  lemma EscalationsKept(s: Store, s': Store, t: nat, k: Task, k': Task)
    requires EscalationsOk(s, t, k) && k'.bypass == k.bypass && k'.escalationId == k.escalationId
    requires k.done <= k'.done && (k.done <= 3 ==> k'.done <= 3)
    requires (k'.userId == k.userId && k'.callId == k.callId) || k.done <= 3
    requires forall e <- s.escalations ::
               e in s'.escalations && s'.escalations[e] == s.escalations[e].(status := s'.escalations[e].status)
    requires forall e <- s'.escalations :: e in s.escalations
    ensures EscalationsOk(s', t, k')
  {
    assert forall e :: OwnEscalation(s', t, e) <==> OwnEscalation(s, t, e);
  }

  lemma NoticesKept(s: Store, s': Store, t: nat, k: Task, k': Task)
    requires NoticesOk(s, t, k) && s'.notices == s.notices && k'.done <= 5 && k.done <= k'.done && k'.bypass == k.bypass
    ensures NoticesOk(s', t, k')
  {
  }

  lemma UserStep(s: Store, t: nat, k: Task, o: Outcome)
    requires StoreOk(s) && TaskOk(s, t, k) && k.done == 0
    ensures TaskOk(StepStore(s, t, k, o), t, StepTask(s, k, o))
  {
    hide CallsOk, EscalationsOk, NoticesOk, NonEmpty, UserFor, WithUser;
    var s', k' := StepStore(s, t, k, o), StepTask(s, k, o);
    UserAdded(s, NonEmpty(k.bypass.callerPhone), Some(t));
    OnlyUsers(s, NonEmpty(k.bypass.callerPhone));
    CallsKept(s, s', t, k, k');
    EscalationsKept(s, s', t, k, k');
    NoticesKept(s, s', t, k, k');
  }

  lemma OnlyUsers(s: Store, phone: Option<string>)
    ensures var s' := WithUser(s, phone);
            s'.calls == s.calls && s'.escalations == s.escalations && s'.notices == s.notices
  {
  }

  lemma CallsAfter(s: Store, t: nat, k: Task, o: Outcome)
    requires s.nextCall !in s.calls && CallsOk(s, t, k) && k.done == 1
    ensures CallsOk(StepStore(s, t, k, o), t, StepTask(s, k, o))
  {
    hide RestaurantText;
    var s' := StepStore(s, t, k, o);
    forall c | OwnCall(s', t, c) ensures c == s.nextCall && Attempts(k) && Wrote(o) {
      assert !OwnCall(s, t, c);
    }
  }

  lemma CallStep(s: Store, t: nat, k: Task, o: Outcome)
    requires StoreOk(s) && TaskOk(s, t, k) && k.done == 1
    ensures TaskOk(StepStore(s, t, k, o), t, StepTask(s, k, o))
  {
    assert s.nextCall !in s.calls;
    hide StoreOk, CallsOk, EscalationsOk, NoticesOk, NonEmpty, RestaurantText;
    var s', k' := StepStore(s, t, k, o), StepTask(s, k, o);
    CallsAfter(s, t, k, o);
    EscalationsKept(s, s', t, k, k');
    NoticesKept(s, s', t, k, k');
  }

  lemma EscalationsAfter(s: Store, t: nat, k: Task, o: Outcome)
    requires s.nextEscalation !in s.escalations && EscalationsOk(s, t, k) && k.done == 3
    ensures EscalationsOk(StepStore(s, t, k, o), t, StepTask(s, k, o))
  {
    hide RestaurantText, NonEmpty;
    var s' := StepStore(s, t, k, o);
    forall e | OwnEscalation(s', t, e) ensures e == s.nextEscalation && Attempts(k) && Wrote(o) {
      assert !OwnEscalation(s, t, e);
    }
  }

  lemma EscalationStep(s: Store, t: nat, k: Task, o: Outcome)
    requires StoreOk(s) && TaskOk(s, t, k) && k.done == 3
    ensures TaskOk(StepStore(s, t, k, o), t, StepTask(s, k, o))
  {
    assert s.nextEscalation !in s.escalations;
    hide StoreOk, CallsOk, EscalationsOk, NoticesOk, NonEmpty, RestaurantText;
    var s', k' := StepStore(s, t, k, o), StepTask(s, k, o);
    EscalationsAfter(s, t, k, o);
    CallsKept(s, s', t, k, k');
    NoticesKept(s, s', t, k, k');
  }

  /** The status steps touch one row's status each. */
  lemma OnlyStatuses(s: Store, t: nat, k: Task, o: Outcome)
    requires k.done == 2 || k.done == 4
    ensures var s' := StepStore(s, t, k, o);
            && s'.users == s.users && s'.notices == s.notices
            && s'.calls.Keys == s.calls.Keys && s'.escalations.Keys == s.escalations.Keys
            && (forall c <- s.calls :: s'.calls[c] == s.calls[c].(status := s'.calls[c].status))
            && (forall e <- s.escalations :: s'.escalations[e] == s.escalations[e].(status := s'.escalations[e].status))
  {
  }

  lemma StatusStep(s: Store, t: nat, k: Task, o: Outcome)
    requires TaskOk(s, t, k) && (k.done == 2 || k.done == 4)
    ensures TaskOk(StepStore(s, t, k, o), t, StepTask(s, k, o))
  {
    hide CallsOk, EscalationsOk, NoticesOk, NonEmpty, StepStore;
    var s', k' := StepStore(s, t, k, o), StepTask(s, k, o);
    OnlyStatuses(s, t, k, o);
    CallsKept(s, s', t, k, k');
    EscalationsKept(s, s', t, k, k');
    NoticesKept(s, s', t, k, k');
  }

  lemma KnownIds(s: Store, t: nat, k: Task)
    requires TaskOk(s, t, k)
    ensures k.callId.Some? ==> OwnCall(s, t, k.callId.value)
    ensures k.escalationId.Some? ==> OwnEscalation(s, t, k.escalationId.value)
  {
  }

  lemma NoticesAfter(s: Store, t: nat, k: Task, o: Outcome)
    requires NoticesOk(s, t, k) && k.done >= 5
    ensures NoticesOk(StepStore(s, t, k, o), t, StepTask(s, k, o))
  {
    hide RestaurantText, NonEmpty, RestaurantNumber;
  }

  lemma NoticeStep(s: Store, t: nat, k: Task, o: Outcome)
    requires TaskOk(s, t, k) && k.done >= 5
    ensures TaskOk(StepStore(s, t, k, o), t, StepTask(s, k, o))
  {
    hide CallsOk, EscalationsOk, NoticesOk, NonEmpty, RestaurantNumber, NewNotice;
    var s', k' := StepStore(s, t, k, o), StepTask(s, k, o);
    CallsKept(s, s', t, k, k');
    EscalationsKept(s, s', t, k, k');
    NoticesAfter(s, t, k, o);
  }

  lemma OwnStep(s: Store, t: nat, k: Task, o: Outcome)
    requires StoreOk(s) && TaskOk(s, t, k)
    ensures TaskOk(StepStore(s, t, k, o), t, StepTask(s, k, o))
  {
    hide StoreOk, TaskOk, StepStore, StepTask;
    if k.done == 0 {
      UserStep(s, t, k, o);
    } else if k.done == 1 {
      CallStep(s, t, k, o);
    } else if k.done == 3 {
      EscalationStep(s, t, k, o);
    } else if k.done == 2 || k.done == 4 {
      StatusStep(s, t, k, o);
    } else {
      NoticeStep(s, t, k, o);
    }
  }

  lemma OtherStep(w: World, e: Event)
    requires WorldOk(w) && !e.StartTask? && !e.Advance?
    ensures WorldOk(Step(w, e))
  {
    hide StoreOk, Extends, TaskOk, WithUser, WithCall, WithEscalation;
    hide WithNumber, WithCallStatus, WithEscalationStatus;
    var w' := Step(w, e);
    match e {
      case OtherUser(phone) => UserAdded(w.store, phone, None);
      case OtherCall(row) => CallAdded(w.store, row.(owner := None));
      case OtherEscalation(row) => EscalationAdded(w.store, row.(owner := None));
      case OtherUserUpdate(user, phone) => NumberSet(w.store, user, phone, None);
      case OtherCallStatus(id, status) => CallStatusSet(w.store, id, status, None);
      case OtherEscalationStatus(id, status) => EscalationStatusSet(w.store, id, status, None);
    }
    OwnersStayKnown(w, w'.store, None);
    forall t | t in w.tasks ensures TaskOk(w'.store, t, w.tasks[t]) {
      OthersUnaffected(w.store, w'.store, None, t, w.tasks[t]);
    }
  }

  lemma OwnersStayKnown(w: World, s': Store, author: Option<nat>)
    requires OwnersKnown(w) && Extends(w.store, s', author) && (author.Some? ==> author.value in w.tasks)
    ensures OwnersKnown(World(s', w.tasks))
  {
  }

  lemma StartStep(w: World, t: nat, b: Bypass)
    requires WorldOk(w)
    ensures WorldOk(Step(w, StartTask(t, b)))
  {
    hide StoreOk;
    if t !in w.tasks {
      var w' := Step(w, StartTask(t, b));
      assert forall c :: !OwnCall(w.store, t, c);
      assert forall e :: !OwnEscalation(w.store, t, e);
      assert TaskOk(w'.store, t, w'.tasks[t]);
      hide TaskOk;
    }
  }

  lemma AdvanceStep(w: World, t: nat, o: Outcome)
    requires WorldOk(w)
    ensures WorldOk(Step(w, Advance(t, o)))
  {
    hide StoreOk, Extends, TaskOk, StepStore, StepTask;
    if t in w.tasks {
      var s, w' := w.store, Step(w, Advance(t, o));
      EffectExtends(s, t, w.tasks[t], o);
      OwnersStayKnown(w, w'.store, Some(t));
      assert w'.tasks.Keys == w.tasks.Keys;
      OwnStep(s, t, w.tasks[t], o);
      forall u | u in w.tasks && u != t ensures TaskOk(w'.store, u, w'.tasks[u]) {
        OthersUnaffected(s, w'.store, Some(t), u, w.tasks[u]);
      }
    }
  }

  /** Whatever the interleaving and the outcomes, everything above holds all along. */
  lemma {:induction false} RunOk(s: Store, events: seq<Event>)
    requires StoreOk(s) && OwnersKnown(World(s, map[]))
    ensures WorldOk(Run(s, events))
  {
    hide StoreOk, OwnersKnown, Step;
    if events == [] {
      hide TaskOk;
    } else {
      var w, e := Run(s, events[..|events| - 1]), events[|events| - 1];
      RunOk(s, events[..|events| - 1]);
      hide WorldOk;
      match e {
        case StartTask(t, b) => StartStep(w, t, b);
        case Advance(t, o) => AdvanceStep(w, t, o);
        case _ => OtherStep(w, e);
      }
    }
  }

  // ---------- What that means ----------

  /** Tables before any task: no row or notice is a task's. */
  predicate Before(s: Store) {
    StoreOk(s) && OwnersKnown(World(s, map[]))
  }

  /** A task makes at most one call and one escalation, and one notice of each kind. */
  lemma OneOfEach(s: Store, events: seq<Event>, t: nat)
    requires Before(s) && t in Run(s, events).tasks
    ensures var s' := Run(s, events).store;
            && (forall c, d :: OwnCall(s', t, c) && OwnCall(s', t, d) ==> c == d)
            && (forall e, f :: OwnEscalation(s', t, e) && OwnEscalation(s', t, f) ==> e == f)
            && (forall i, j :: 0 <= i < j < |s'.notices| && s'.notices[i].task == t && s'.notices[j].task == t ==>
                  s'.notices[i].Redirected? && s'.notices[j].Persisted?)
  {
    RunOk(s, events);
    hide Run;
  }

  /**
    The escalation of a task names a user that exists, and the task's own call, which names the same user, restaurant
    and Twilio call; the user has the number of the task's caller unless it was given another one since.
   */
  lemma EscalationRefersToItsTask(s: Store, events: seq<Event>, t: nat, e: nat)
    requires Before(s) && OwnEscalation(Run(s, events).store, t, e)
    ensures var s', k := Run(s, events).store, Run(s, events).tasks;
            var row := s'.escalations[e];
            && t in k && k[t].userId == Some(row.user)
            && row.user in s'.users
            && (!RenumberedSince(s, events, t) ==> s'.users[row.user] == NonEmpty(k[t].bypass.callerPhone))
            && OwnCall(s', t, row.callId)
            && s'.calls[row.callId].user == row.user
            && s'.calls[row.callId].restaurant == row.restaurant && s'.calls[row.callId].sid == row.sid
            && row.sid == k[t].bypass.callSid && row.callerPhone == k[t].bypass.callerPhone
            && row.forwardTo == (if Blank(k[t].bypass.escalationPhone) then None
                else Some(Strip(k[t].bypass.escalationPhone)))
            && row.restaurant == (match k[t].bypass.restaurant
                                  case NoId => None
                                  case Number(n) => Some(IntText(n))
                                  case Other(text, _) => Some(text))
  {
    RunOk(s, events);
    var w := Run(s, events);
    hide Run, StoreOk, RenumberedSince, Strip;
    assert TaskOk(w.store, t, w.tasks[t]);
    if !RenumberedSince(s, events, t) {
      CallerNumberKept(s, events, t);
    }
  }

  /** Since the task resolved its user, other code has given that user another number than the caller's. */
  predicate RenumberedSince(s: Store, events: seq<Event>, t: nat) {
    events != []
    && var init, e := events[..|events| - 1], events[|events| - 1];
       var k := Run(s, init).tasks;
       || RenumberedSince(s, init, t)
       || (&& e.OtherUserUpdate? && t in k && k[t].userId == Some(e.user)
           && e.phone != NonEmpty(k[t].bypass.callerPhone))
  }

  lemma StepKeepsNumber(w: World, e: Event, u: nat)
    requires StoreOk(w.store) && u in w.store.users
    ensures u in Step(w, e).store.users
    ensures || Step(w, e).store.users[u] == w.store.users[u]
            || (e.OtherUserUpdate? && e.user == u && Step(w, e).store.users[u] == e.phone)
  {
    hide NewCall, NewEscalation, NewNotice, NonEmpty, RestaurantText, RestaurantNumber;
  }

  /** Who that is: the user with the caller's number if there is one, and else one that was not there before. */
  lemma ResolvesTo(w: World, t: nat, u: nat)
    requires StoreOk(w.store) && t in w.tasks && w.tasks[t].done == 0
    ensures var w', phone := Step(w, Advance(t, Works)), w.tasks[t].bypass.callerPhone;
            && w'.tasks[t].userId.Some?
            && (u in w.store.users && phone !in {None, Some("")} && w.store.users[u] == phone ==>
                  w'.tasks[t].userId == Some(u) && w'.store.users == w.store.users)
            && ((phone in {None, Some("")} || forall v <- w.store.users :: w.store.users[v] != phone) ==>
                  && w'.tasks[t].userId.value !in w.store.users
                  && w'.store.users.Keys == w.store.users.Keys + {w'.tasks[t].userId.value})
            && (forall v <- w.store.users :: v in w'.store.users && w'.store.users[v] == w.store.users[v])
  {
    hide RestaurantText, RestaurantNumber;
    var phone := w.tasks[t].bypass.callerPhone;
    assert phone == Some("") <==> phone.Some? && phone.value == "";
  }

  /** A step that resolves a task's user resolves it to the user with the caller's number, or to a new one. */
  lemma UserIsCallerWhenResolved(w: World, t: nat, o: Outcome)
    requires StoreOk(w.store) && t in w.tasks && w.tasks[t].userId.None?
    ensures var w' := Step(w, Advance(t, o));
            var k := w'.tasks[t];
            k.userId.Some? ==> k.userId.value in w'.store.users
                               && w'.store.users[k.userId.value] == NonEmpty(k.bypass.callerPhone)
  {
    hide NonEmpty, RestaurantText, RestaurantNumber;
    UserStored(w.store, NonEmpty(w.tasks[t].bypass.callerPhone));
  }

  /** A resolved user stays, and has the caller's number unless it was given another one since. */
  lemma {:induction false} CallerNumberKept(s: Store, events: seq<Event>, t: nat)
    requires Before(s) && t in Run(s, events).tasks && Run(s, events).tasks[t].userId.Some?
    requires !RenumberedSince(s, events, t)
    ensures var w := Run(s, events);
            var u := w.tasks[t].userId.value;
            u in w.store.users && w.store.users[u] == NonEmpty(w.tasks[t].bypass.callerPhone)
  {
    hide StoreOk, OwnersKnown, NonEmpty, Attempts;
    if events != [] {
      var init, e := events[..|events| - 1], events[|events| - 1];
      var w, w' := Run(s, init), Run(s, events);
      RunOk(s, init);
      assert StoreOk(w.store) && (t in w.tasks ==> UserOk(w.store, w.tasks[t])) by {
        TaskFacts(w, t);
      }
      hide Run, WorldOk, StepStore;
      if t in w.tasks && w.tasks[t].userId.Some? {
        CallerNumberKept(s, init, t);
        StepKeepsNumber(w, e, w.tasks[t].userId.value);
        assert w'.tasks[t].userId == w.tasks[t].userId && w'.tasks[t].bypass == w.tasks[t].bypass;
      } else {
        assert e.Advance? && e.task == t;
        UserIsCallerWhenResolved(w, t, e.outcome);
      }
    }
  }

  lemma TaskFacts(w: World, t: nat)
    requires WorldOk(w)
    ensures StoreOk(w.store) && (t in w.tasks ==> UserOk(w.store, w.tasks[t]))
  {
  }

  /**
    Only a step of the task that made a call or an escalation marks its row; everybody else sets what statuses they
    name.
   */
  lemma MarksOwnRows(s: Store, events: seq<Event>, e: Event)
    requires Before(s)
    ensures var w := Run(s, events); var s' := Step(w, e).store;
            && (forall c <- w.store.calls :: c in s'.calls && (s'.calls[c] != w.store.calls[c] ==>
                  || (e.Advance? && OwnCall(w.store, e.task, c) && s'.calls[c].status == "agent_bypassed")
                  || e == OtherCallStatus(c, s'.calls[c].status)))
            && (forall x <- w.store.escalations ::
                  x in s'.escalations && (s'.escalations[x] != w.store.escalations[x] ==>
                  || (e.Advance? && OwnEscalation(w.store, e.task, x) && s'.escalations[x].status == "forwarded")
                  || e == OtherEscalationStatus(x, s'.escalations[x].status)))
  {
    RunOk(s, events);
    var w := Run(s, events);
    hide Run, RestaurantText, NonEmpty, RestaurantNumber, NoticesOk;
    assert w.store.nextCall !in w.store.calls && w.store.nextEscalation !in w.store.escalations;
    if e.Advance? && e.task in w.tasks {
      KnownIds(w.store, e.task, w.tasks[e.task]);
      hide TaskOk, StoreOk, OwnersKnown;
      StepChangesMarked(w.store, e.task, w.tasks[e.task], e.outcome);
    }
  }

  lemma StepChangesMarked(s: Store, t: nat, k: Task, o: Outcome)
    requires s.nextCall !in s.calls && s.nextEscalation !in s.escalations
    ensures var s' := StepStore(s, t, k, o);
            && (forall c <- s.calls :: c in s'.calls && (s'.calls[c] != s.calls[c] ==>
                  k.callId == Some(c) && s'.calls[c].status == "agent_bypassed"))
            && (forall x <- s.escalations :: x in s'.escalations && (s'.escalations[x] != s.escalations[x] ==>
                  k.escalationId == Some(x) && s'.escalations[x].status == "forwarded"))
  {
    hide RestaurantText, NonEmpty, RestaurantNumber;
  }

  /**
    Exactly when a second task of a caller resolves to the user of the first: when at that step this user still has the
    caller's number.
   */
  lemma SameUserIff(s: Store, events: seq<Event>, t: nat, u: nat)
    requires Before(s) && t in Run(s, events).tasks && u in Run(s, events).tasks
    requires var k := Run(s, events).tasks;
             && k[t].userId.Some? && k[u].done == 0
             && k[t].bypass.callerPhone == k[u].bypass.callerPhone && k[t].bypass.callerPhone !in {None, Some("")}
    ensures var w := Run(s, events);
            var first := w.tasks[t].userId.value;
            && first in w.store.users
            && (Step(w, Advance(u, Works)).tasks[u].userId == Some(first) <==>
                w.store.users[first] == w.tasks[u].bypass.callerPhone)
  {
    RunOk(s, events);
    hide Run, CallsOk, EscalationsOk, NoticesOk, OwnersKnown;
    var w := Run(s, events);
    assert TaskOk(w.store, t, w.tasks[t]);
  }

  /** Once resolved, a task's user is its user for good. */
  lemma ResolvedForGood(s: Store, events: seq<Event>, e: Event, t: nat)
    requires Before(s) && t in Run(s, events).tasks && Run(s, events).tasks[t].userId.Some?
    ensures var w := Run(s, events);
            t in Step(w, e).tasks && Step(w, e).tasks[t].userId == w.tasks[t].userId
  {
    RunOk(s, events);
    TaskFacts(Run(s, events), t);
    hide Run, WorldOk, StepStore;
  }

  /** Two tasks of one caller record the same user, unless it was given another number since one of them resolved it. */
  lemma OneUserPerCaller(s: Store, events: seq<Event>, t: nat, u: nat)
    requires Before(s) && t in Run(s, events).tasks && u in Run(s, events).tasks
    requires var k := Run(s, events).tasks;
             && k[t].userId.Some? && k[u].userId.Some?
             && k[t].bypass.callerPhone == k[u].bypass.callerPhone && k[t].bypass.callerPhone !in {None, Some("")}
    requires !RenumberedSince(s, events, t) && !RenumberedSince(s, events, u)
    ensures Run(s, events).tasks[t].userId == Run(s, events).tasks[u].userId
  {
    RunOk(s, events);
    hide Run, RenumberedSince;
    CallerNumberKept(s, events, t);
    CallerNumberKept(s, events, u);
  }

  /** Without the proviso they may not: here the first user is given another number between the two. */
  lemma RenumberedCallerSplits(b: Bypass)
    requires b.callerPhone == Some("1")
    ensures var events := [StartTask(0, b), Advance(0, Works), OtherUserUpdate(0, Some("2")),
                           StartTask(1, b), Advance(1, Works)];
            var k := Run(Store(map[], map[], 0, map[], 0, map[], 0, []), events).tasks;
            k.Keys == {0, 1} && k[0].userId == Some(0) && k[1].userId == Some(1)
  {
    var s := Store(map[], map[], 0, map[], 0, map[], 0, []);
    var e := [StartTask(0, b), Advance(0, Works), OtherUserUpdate(0, Some("2")), StartTask(1, b), Advance(1, Works)];
    hide RestaurantText, RestaurantNumber, Run;
    RunSteps(s, e);
    var w2 := Step(World(s, map[0 := Fresh(b)]), e[1]);
    assert w2.store.byPhone == map["1" := 0] && w2.tasks[0].userId == Some(0);
    var w3 := Step(w2, e[2]);
    assert w3.store.byPhone == map["2" := 0] && w3.tasks == w2.tasks;
  }

  lemma RunSteps(s: Store, e: seq<Event>)
    requires |e| == 5
    ensures Run(s, e) == Step(Step(Step(Step(Step(World(s, map[]), e[0]), e[1]), e[2]), e[3]), e[4])
  {
    hide Step;
    assert e[..5] == e && e[..5][..4] == e[..4] && e[..4][..3] == e[..3];
    assert e[..3][..2] == e[..2] && e[..2][..1] == e[..1] && e[..1][..0] == [];
    assert Run(s, e[..0]) == World(s, map[]);
    assert Run(s, e[..1]) == Step(Run(s, e[..0]), e[0]);
    assert Run(s, e[..2]) == Step(Run(s, e[..1]), e[1]);
    assert Run(s, e[..3]) == Step(Run(s, e[..2]), e[2]);
    assert Run(s, e[..4]) == Step(Run(s, e[..3]), e[3]);
  }

  // ---------- Every task gets to its end ----------

  /** The turns a task has had since it was started. */
  function Turns(events: seq<Event>, t: nat): nat {
    if events == [] then 0
    else
      var init, e := events[..|events| - 1], events[|events| - 1];
      Turns(init, t) + if e.Advance? && e.task == t && Started(init, t) then 1 else 0
  }

  predicate Started(events: seq<Event>, t: nat) {
    exists e <- events :: e.StartTask? && e.task == t
  }

  /** Each turn is a step behind it, whatever the turn did and whatever the other tasks do; seven turns end the task. */
  lemma {:induction false} EveryTurnIsAStep(s: Store, events: seq<Event>, t: nat)
    ensures t in Run(s, events).tasks <==> Started(events, t)
    ensures t in Run(s, events).tasks ==>
              Run(s, events).tasks[t].done == if Turns(events, t) < STEPS then Turns(events, t) else STEPS
    ensures !Started(events, t) ==> Turns(events, t) == 0
  {
    hide StepStore, Noted, Attempts;
    if events != [] {
      var init, e := events[..|events| - 1], events[|events| - 1];
      EveryTurnIsAStep(s, init, t);
      assert events == init + [e];
      assert Started(events, t) <==> Started(init, t) || (e.StartTask? && e.task == t);
    }
  }

  // ---------- The task by itself ----------

  function Turn(t: nat, outcomes: seq<Outcome>): seq<Event> {
    seq(|outcomes|, i requires 0 <= i < |outcomes| => Advance(t, outcomes[i]))
  }

  /** The method, which runs a task by itself, makes one of these runs; so all of this holds of it. */
  lemma {:induction false} AloneIsARun(s: Store, t: nat, b: Bypass, outcomes: seq<Outcome>)
    ensures var (s', k) := RunAlone(s, t, b, outcomes);
            Run(s, [StartTask(t, b)] + Turn(t, outcomes)) == World(s', map[t := k])
  {
    hide StepStore, StepTask;
    var events := [StartTask(t, b)] + Turn(t, outcomes);
    if outcomes == [] {
      assert events == [StartTask(t, b)] && events[..0] == [];
    } else {
      var init := outcomes[..|outcomes| - 1];
      AloneIsARun(s, t, b, init);
      assert events[..|events| - 1] == [StartTask(t, b)] + Turn(t, init);
      assert events[|events| - 1] == Advance(t, outcomes[|outcomes| - 1]);
    }
  }
}
