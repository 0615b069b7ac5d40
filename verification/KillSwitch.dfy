/**
  The background task that records a call redirected by the kill switch (`_record_kill_switch_bypass` in `app/main.py`):
  best-effort steps over the users, calls and escalations, with an await at each. Rows carry the task that made them.
 */
module KillSwitch {
  import opened Text

  /** `restaurant.get("id")`: nothing, a number, or something else with what `int` makes of it. */
  datatype RawId = NoId | Number(n: int) | Other(text: string, parsed: Option<int>)

  datatype Bypass = Bypass(restaurant: RawId, callerPhone: Option<string>, callSid: Option<string>,
                           escalationPhone: string)

  function RestaurantText(id: RawId): Option<string> {
    match id
    case NoId => None
    case Number(n) => Some(IntText(n))
    case Other(text, _) => Some(text)
  }

  function RestaurantNumber(id: RawId): Option<int> {
    match id
    case NoId => None
    case Number(n) => Some(n)
    case Other(_, parsed) => parsed
  }

  /** An empty number counts as none. */
  function NonEmpty(text: Option<string>): Option<string> {
    if text == Some("") then None else text
  }

  datatype CallRow = CallRow(owner: Option<nat>, user: nat, restaurant: Option<string>, sid: Option<string>,
                             status: string)

  datatype EscalationRow = EscalationRow(owner: Option<nat>, callId: nat, user: nat, restaurant: Option<string>,
                                         sid: Option<string>, callerPhone: Option<string>, forwardTo: Option<string>,
                                         status: string)

  /** The event sent to the dashboards, and the notification stored for them. */
  datatype Notice =
    | Redirected(task: nat, restaurant: int, callId: Option<nat>)
    | Persisted(task: nat, restaurant: int, escalationId: Option<nat>, entity: Option<nat>)

  /** The tables with their auto-increment counters and the unique index on the numbers of the users. */
  datatype Store = Store(users: map<nat, Option<string>>, byPhone: map<string, nat>, nextUser: nat,
                         calls: map<nat, CallRow>, nextCall: nat,
                         escalations: map<nat, EscalationRow>, nextEscalation: nat, notices: seq<Notice>)

  /** A step works, or raises before or after its write. */
  datatype Outcome = Works | Fails(wrote: bool)

  predicate Wrote(o: Outcome) {
    o.Works? || o.wrote
  }

  /** The locals of a task, and how many of its steps are behind it. */
  datatype Task = Task(bypass: Bypass, done: nat, userId: Option<nat>, callId: Option<nat>, escalationId: Option<nat>)

  const STEPS: nat := 7

  function Fresh(b: Bypass): Task {
    Task(b, 0, None, None, None)
  }

  // ---------- The services ----------

  /** `create_or_update_user`: the user with that number, or a new one. */
  function UserFor(s: Store, phone: Option<string>): nat {
    if phone.Some? && phone.value in s.byPhone then s.byPhone[phone.value] else s.nextUser
  }

  function WithUser(s: Store, phone: Option<string>): Store {
    if phone.Some? && phone.value in s.byPhone then s
    else s.(users := s.users[s.nextUser := phone], nextUser := s.nextUser + 1,
            byPhone := if phone.Some? then s.byPhone[phone.value := s.nextUser] else s.byPhone)
  }

  /** `update_user` with a number; the unique index refuses one that another user has. */
  function WithNumber(s: Store, user: nat, phone: Option<string>): Store {
    if user !in s.users || (phone.Some? && phone.value in s.byPhone && s.byPhone[phone.value] != user) then s
    else
      var freed := if s.users[user].Some? then s.byPhone - {s.users[user].value} else s.byPhone;
      s.(users := s.users[user := phone], byPhone := if phone.Some? then freed[phone.value := user] else freed)
  }

  function WithCall(s: Store, row: CallRow): Store {
    s.(calls := s.calls[s.nextCall := row], nextCall := s.nextCall + 1)
  }

  function WithEscalation(s: Store, row: EscalationRow): Store {
    s.(escalations := s.escalations[s.nextEscalation := row], nextEscalation := s.nextEscalation + 1)
  }

  function WithCallStatus(s: Store, id: nat, status: string): Store {
    if id in s.calls then s.(calls := s.calls[id := s.calls[id].(status := status)]) else s
  }

  function WithEscalationStatus(s: Store, id: nat, status: string): Store {
    if id in s.escalations then s.(escalations := s.escalations[id := s.escalations[id].(status := status)]) else s
  }

  // ---------- One step of a task ----------

  function NewCall(t: nat, k: Task): CallRow
    requires k.userId.Some?
  {
    CallRow(Some(t), k.userId.value, RestaurantText(k.bypass.restaurant), k.bypass.callSid, "in_progress")
  }

  function NewEscalation(t: nat, k: Task): EscalationRow
    requires k.userId.Some? && k.callId.Some?
  {
    EscalationRow(Some(t), k.callId.value, k.userId.value, RestaurantText(k.bypass.restaurant), k.bypass.callSid,
                  k.bypass.callerPhone, NonEmpty(Some(Strip(k.bypass.escalationPhone))), "raised")
  }

  function NewNotice(t: nat, k: Task): Notice
    requires RestaurantNumber(k.bypass.restaurant).Some?
  {
    var n := RestaurantNumber(k.bypass.restaurant).value;
    if k.done == 5 then Redirected(t, n, k.callId)
    else Persisted(t, n, k.escalationId, if k.escalationId.Some? then k.escalationId else k.callId)
  }

  /** Whether the next step gets past its `if`. */
  predicate Attempts(k: Task) {
    match k.done
    case 0 => true
    case 1 => k.userId.Some? && RestaurantText(k.bypass.restaurant).Some?
    case 2 => k.callId.Some?
    case 3 => k.callId.Some? && k.userId.Some? && RestaurantText(k.bypass.restaurant).Some?
    case 4 => k.escalationId.Some?
    case 5 => RestaurantNumber(k.bypass.restaurant).Some?
    case 6 => RestaurantNumber(k.bypass.restaurant).Some?
    case _ => false
  }

  /** What the step writes. */
  function Effect(s: Store, t: nat, k: Task): Store
    requires Attempts(k)
  {
    match k.done
    case 0 => WithUser(s, NonEmpty(k.bypass.callerPhone))
    case 1 => WithCall(s, NewCall(t, k))
    case 2 => WithCallStatus(s, k.callId.value, "agent_bypassed")
    case 3 => WithEscalation(s, NewEscalation(t, k))
    case 4 => WithEscalationStatus(s, k.escalationId.value, "forwarded")
    case _ => s.(notices := s.notices + [NewNotice(t, k)])
  }

  /** What the task remembers of a step that worked. */
  function Noted(s: Store, k: Task): Task {
    match k.done
    case 0 => k.(userId := Some(UserFor(s, NonEmpty(k.bypass.callerPhone))))
    case 1 => k.(callId := Some(s.nextCall))
    case 3 => k.(escalationId := Some(s.nextEscalation))
    case _ => k
  }

  function StepStore(s: Store, t: nat, k: Task, o: Outcome): Store {
    if Attempts(k) && Wrote(o) then Effect(s, t, k) else s
  }

  function StepTask(s: Store, k: Task, o: Outcome): Task {
    var noted := if Attempts(k) && o.Works? then Noted(s, k) else k;
    if k.done < STEPS then noted.(done := k.done + 1) else k
  }

  // ---------- The task by itself, as it is written ----------

  /** The steps of a new task, nothing else running. */
  function RunAlone(s: Store, t: nat, b: Bypass, outcomes: seq<Outcome>): (Store, Task) {
    if outcomes == [] then (s, Fresh(b))
    else
      var (s', k) := RunAlone(s, t, b, outcomes[..|outcomes| - 1]);
      var o := outcomes[|outcomes| - 1];
      (StepStore(s', t, k, o), StepTask(s', k, o))
  }

  lemma OneMore(s: Store, t: nat, b: Bypass, outcomes: seq<Outcome>, i: nat)
    requires i < |outcomes|
    ensures var (s', k) := RunAlone(s, t, b, outcomes[..i]);
            RunAlone(s, t, b, outcomes[..i + 1]) == (StepStore(s', t, k, outcomes[i]), StepTask(s', k, outcomes[i]))
  {
    hide StepStore, StepTask;
    assert outcomes[..i + 1][..i] == outcomes[..i];
  }

  class Services {
    var store: Store

    constructor (s: Store)
      ensures store == s
    {
      store := s;
    }

    method ResolveUser(t: nat, k: Task, o: Outcome) returns (k': Task)
      requires k.done == 0
      modifies this
      ensures store == StepStore(old(store), t, k, o) && k' == StepTask(old(store), k, o)
    {
      var userId := k.userId;
      if Wrote(o) {
        var id := UserFor(store, NonEmpty(k.bypass.callerPhone));
        store := WithUser(store, NonEmpty(k.bypass.callerPhone));
        if o.Works? {
          userId := Some(id);
        }
      }
      return k.(done := 1, userId := userId);
    }

    method CreateCall(t: nat, k: Task, o: Outcome) returns (k': Task)
      requires k.done == 1
      modifies this
      ensures store == StepStore(old(store), t, k, o) && k' == StepTask(old(store), k, o)
    {
      var callId := k.callId;
      if k.userId.Some? && RestaurantText(k.bypass.restaurant).Some? && Wrote(o) {
        var id := store.nextCall;
        store := WithCall(store, NewCall(t, k));
        if o.Works? {
          callId := Some(id);
        }
      }
      return k.(done := 2, callId := callId);
    }

    method FinalizeCall(t: nat, k: Task, o: Outcome) returns (k': Task)
      requires k.done == 2
      modifies this
      ensures store == StepStore(old(store), t, k, o) && k' == StepTask(old(store), k, o)
    {
      if k.callId.Some? && Wrote(o) {
        store := WithCallStatus(store, k.callId.value, "agent_bypassed");
      }
      return k.(done := 3);
    }

    method CreateEscalation(t: nat, k: Task, o: Outcome) returns (k': Task)
      requires k.done == 3
      modifies this
      ensures store == StepStore(old(store), t, k, o) && k' == StepTask(old(store), k, o)
    {
      var escalationId := k.escalationId;
      if k.callId.Some? && k.userId.Some? && RestaurantText(k.bypass.restaurant).Some? && Wrote(o) {
        var id := store.nextEscalation;
        store := WithEscalation(store, NewEscalation(t, k));
        if o.Works? {
          escalationId := Some(id);
        }
      }
      return k.(done := 4, escalationId := escalationId);
    }

    method MarkForwarded(t: nat, k: Task, o: Outcome) returns (k': Task)
      requires k.done == 4
      modifies this
      ensures store == StepStore(old(store), t, k, o) && k' == StepTask(old(store), k, o)
    {
      if k.escalationId.Some? && Wrote(o) {
        store := WithEscalationStatus(store, k.escalationId.value, "forwarded");
      }
      return k.(done := 5);
    }

    method Notify(t: nat, k: Task, o: Outcome) returns (k': Task)
      requires k.done == 5 || k.done == 6
      modifies this
      ensures store == StepStore(old(store), t, k, o) && k' == StepTask(old(store), k, o)
    {
      if RestaurantNumber(k.bypass.restaurant).Some? && Wrote(o) {
        store := store.(notices := store.notices + [NewNotice(t, k)]);
      }
      return k.(done := k.done + 1);
    }

    /** `_record_kill_switch_bypass`: it gets to its end whatever its steps do. */
    method RecordBypass(t: nat, b: Bypass, outcomes: seq<Outcome>) returns (k: Task)
      requires |outcomes| == STEPS
      modifies this
      ensures (store, k) == RunAlone(old(store), t, b, outcomes)
      ensures k.done == STEPS
    {
      hide StepStore, RunAlone;
      assert RunAlone(store, t, b, outcomes[..0]) == (store, Fresh(b)) by {
        Nothing(store, t, b);
      }
      forall i: nat | i < STEPS {
        OneMore(store, t, b, outcomes, i);
      }
      k := ResolveUser(t, Fresh(b), outcomes[0]);
      k := CreateCall(t, k, outcomes[1]);
      k := FinalizeCall(t, k, outcomes[2]);
      k := CreateEscalation(t, k, outcomes[3]);
      k := MarkForwarded(t, k, outcomes[4]);
      k := Notify(t, k, outcomes[5]);
      k := Notify(t, k, outcomes[6]);
      assert outcomes[..7] == outcomes;
    }
  }

  lemma Nothing(s: Store, t: nat, b: Bypass)
    ensures RunAlone(s, t, b, []) == (s, Fresh(b))
  {
  }
}
