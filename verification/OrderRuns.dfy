/**
  What any run of the order endpoints keeps: the history replays to the stored statuses, and every success is
  announced once.
 */
module OrderRuns {
  import opened Text
  import opened Access
  import opened Orders

  datatype Request = Request(claims: Claims, call: Call, fault: Fault)

  function Step(d: Desk, r: Request): Desk {
    Handle(d, r.claims, r.call, r.fault).0
  }

  function Run(d: Desk, requests: seq<Request>): Desk {
    if requests == [] then d else Step(Run(d, requests[..|requests| - 1]), requests[|requests| - 1])
  }

  predicate Accepted(d: Desk, r: Request) {
    Refusal(d, r.claims, r.call, r.fault).None?
  }

  // ---------- The history of one order ----------

  /**
    Where the entries of an order lead: nowhere yet; to a status, each entry starting where the last one ended; or the
    chain is broken.
   */
  datatype Trail = NoTrail | At(status: string) | Broken

  function TrailOf(history: seq<Entry>, id: nat): Trail {
    if history == [] then NoTrail else Extended(TrailOf(history[..|history| - 1], id), history[|history| - 1], id)
  }

  function Extended(trail: Trail, e: Entry, id: nat): Trail {
    if e.orderId != id then trail
    else
      match (trail, e.previous)
      case (NoTrail, None) => At(e.next)
      case (At(status), Some(previous)) => if previous == status then At(e.next) else Broken
      case _ => Broken
  }

  /** Ids are handed out once. */
  predicate Numbered(d: Desk) {
    && (forall id <- d.orders :: id < d.nextId)
    && (forall e <- d.history :: e.orderId < d.nextId)
    && (forall e <- d.events :: e.orderId < d.nextId)
  }

  predicate Replays(d: Desk, id: nat)
    requires id in d.orders
  {
    TrailOf(d.history, id) == At(d.orders[id].status)
  }

  /** The history of every order chains and leads to the stored status. */
  predicate Consistent(d: Desk) {
    forall id <- d.orders :: Replays(d, id)
  }

  lemma {:induction false} UnknownHasNoTrail(history: seq<Entry>, id: nat)
    requires forall e <- history :: e.orderId != id
    ensures TrailOf(history, id) == NoTrail
  {
    if history != [] {
      UnknownHasNoTrail(history[..|history| - 1], id);
    }
  }

  lemma TrailGrows(history: seq<Entry>, e: Entry, id: nat)
    ensures TrailOf(history + [e], id) == Extended(TrailOf(history, id), e, id)
  {
    assert (history + [e])[..|history|] == history;
  }

  // ---------- What breaks a history ----------

  function StatusAfter(stored: string, c: Call): string {
    match c
    case Update(_, changes) => if changes.status.Some? then changes.status.value else stored
    case SetStatus(_, newStatus) => newStatus
    case Cancel(_) => "cancelled"
    case _ => stored
  }

  /** The status is written and no entry follows. */
  predicate Unlogged(d: Desk, r: Request)
    requires r.call.Update? || r.call.SetStatus? || r.call.Cancel?
    requires Accepted(d, r)
  {
    r.fault.HistoryFails? || (r.call.Update? && r.fault.TailFails?) || d.orders[r.call.orderId].restaurantId == Some(0)
  }

  /**
    An accepted call that leaves the history behind the store: a new order goes unlogged; a status changes unlogged;
    or the stored status is empty, which `old_status or "unknown"` logs as something else.
   */
  predicate Breaks(d: Desk, r: Request) {
    && Accepted(d, r)
    && match r.call
       case Create(_, _, _, _, _) => r.fault.TailFails? || r.fault.HistoryFails?
       case Delete(_) => false
       case Restore(_) => false
       case c =>
         var stored := d.orders[c.orderId].status;
         if Unlogged(d, r) then StatusAfter(stored, c) != stored else !c.Update? && stored == ""
  }

  lemma StepNumbered(d: Desk, r: Request)
    requires Numbered(d)
    ensures Numbered(Step(d, r))
  {
    hide RestaurantAccess, Strip, Lower, Acceptable, OrderSms;
  }

  /** What a written status does to the trail of its order. */
  lemma StatusTrail(d: Desk, r: Request)
    requires Consistent(d) && Accepted(d, r)
    requires r.call.Update? || r.call.SetStatus? || r.call.Cancel?
    ensures var d', id, stored := Step(d, r), r.call.orderId, d.orders[r.call.orderId].status;
            && d'.orders.Keys == d.orders.Keys
            && d'.orders[id].status == StatusAfter(stored, r.call)
            && (TrailOf(d'.history, id) == At(d'.orders[id].status) <==> !Breaks(d, r))
            && forall other <- d.orders :: other != id ==>
                 (d'.orders[other] == d.orders[other] && TrailOf(d'.history, other) == TrailOf(d.history, other))
  {
    hide RestaurantAccess, Strip, Lower, Acceptable, OrderSms, OrderAccess, TrailOf;
    AcceptedIsKnown(d, r);
    var d', id, stored := Step(d, r), r.call.orderId, d.orders[r.call.orderId].status;
    assert Replays(d, id);
    if Unlogged(d, r) {
      assert d'.history == d.history;
    } else {
      var previous := if r.call.Update? then stored else OrUnknown(stored);
      var action := if r.call.Update? then Updated else if r.call.SetStatus? then StatusChanged else OrderCancelled;
      var e := Entry(id, action, Some(previous), StatusAfter(stored, r.call));
      assert d'.history == d.history + [e];
      forall other ensures TrailOf(d'.history, other) == Extended(TrailOf(d.history, other), e, other) {
        TrailGrows(d.history, e, other);
      }
    }
  }

  lemma AcceptedIsKnown(d: Desk, r: Request)
    requires Accepted(d, r) && !r.call.Create?
    ensures r.call.orderId in d.orders && d.orders[r.call.orderId].restaurantId.Some?
    ensures !r.call.Restore? ==> !d.orders[r.call.orderId].deleted
  {
    hide RestaurantAccess, Acceptable;
  }

  lemma CreateTrail(d: Desk, r: Request)
    requires Numbered(d) && Consistent(d) && Accepted(d, r) && r.call.Create?
    ensures Consistent(Step(d, r)) <==> !Breaks(d, r)
  {
    hide RestaurantAccess, Strip, Lower, OrderSms, TrailOf;
    var d', id := Step(d, r), d.nextId;
    UnknownHasNoTrail(d.history, id);
    forall other | other in d'.orders ensures other == id || (other in d.orders && Replays(d, other)) {}
    if Breaks(d, r) {
      assert d'.history == d.history;
      assert !Replays(d', id);
    } else {
      var e := Entry(id, Created, None, d'.orders[id].status);
      forall other | other in d'.orders ensures Replays(d', other) {
        TrailGrows(d.history, e, other);
      }
    }
  }

  /** A call keeps a consistent history consistent exactly when it is none of those that break it. */
  lemma StepKeepsHistory(d: Desk, r: Request)
    requires Numbered(d) && Consistent(d)
    ensures Consistent(Step(d, r)) <==> !Breaks(d, r)
  {
    hide RestaurantAccess, Strip, Lower, Acceptable, OrderSms, OrderAccess, TrailOf;
    var d' := Step(d, r);
    if !Accepted(d, r) {
      assert d' == d;
    } else if r.call.Create? {
      CreateTrail(d, r);
    } else if r.call.Delete? || r.call.Restore? {
      AcceptedIsKnown(d, r);
      forall id | id in d'.orders ensures Replays(d', id) {
        assert Replays(d, id);
      }
    } else {
      AcceptedIsKnown(d, r);
      StatusTrail(d, r);
      if !Breaks(d, r) {
        forall id | id in d'.orders ensures Replays(d', id) {
          assert Replays(d, id);
        }
      } else {
        assert !Replays(d', r.call.orderId);
      }
    }
  }

  /** `p` holds at the start and after every call. */
  predicate Throughout(p: Desk -> bool, d: Desk, requests: seq<Request>) {
    forall k :: 0 <= k <= |requests| ==> p(Run(d, requests[..k]))
  }

  /** No call is a `b` where it occurs. */
  predicate Never(b: (Desk, Request) -> bool, d: Desk, requests: seq<Request>) {
    forall k :: 0 <= k < |requests| ==> !b(Run(d, requests[..k]), requests[k])
  }

  lemma ThroughoutSnoc(p: Desk -> bool, d: Desk, init: seq<Request>, r: Request)
    ensures Throughout(p, d, init + [r]) <==> Throughout(p, d, init) && p(Run(d, init + [r]))
  {
    hide Run;
    var all, n := init + [r], |init|;
    assert forall k :: 0 <= k <= n ==> all[..k] == init[..k];
    assert all[..n + 1] == all;
    if Throughout(p, d, init) && p(Run(d, all)) {
      forall k | 0 <= k <= |all| ensures p(Run(d, all[..k])) {
        assert k <= n ==> p(Run(d, init[..k]));
      }
    }
    if Throughout(p, d, all) {
      forall k | 0 <= k <= n ensures p(Run(d, init[..k])) {
        assert p(Run(d, all[..k]));
      }
    }
  }

  lemma NeverSnoc(b: (Desk, Request) -> bool, d: Desk, init: seq<Request>, r: Request)
    ensures Never(b, d, init + [r]) <==> Never(b, d, init) && !b(Run(d, init), r)
  {
    hide Run;
    var all, n := init + [r], |init|;
    assert forall k :: 0 <= k <= n ==> all[..k] == init[..k];
    assert all[..n] == init && all[n] == r;
    if Never(b, d, init) && !b(Run(d, init), r) {
      forall k | 0 <= k < |all| ensures !b(Run(d, all[..k]), all[k]) {
        assert k < n ==> !b(Run(d, init[..k]), init[k]);
      }
    }
    if Never(b, d, all) {
      assert !b(Run(d, all[..n]), all[n]);
      forall k | 0 <= k < n ensures !b(Run(d, init[..k]), init[k]) {
        assert !b(Run(d, all[..k]), all[k]);
      }
    }
  }

  lemma {:induction false} RunNumbered(d: Desk, requests: seq<Request>)
    requires Numbered(d)
    ensures Numbered(Run(d, requests))
  {
    hide Numbered, Step;
    if requests != [] {
      RunNumbered(d, requests[..|requests| - 1]);
      StepNumbered(Run(d, requests[..|requests| - 1]), requests[|requests| - 1]);
    }
  }

  /** What a call keeps exactly when it is no `b`, a run keeps throughout exactly when none of its calls is. */
  lemma {:induction false} RunKeeps(p: Desk -> bool, b: (Desk, Request) -> bool, d: Desk, requests: seq<Request>)
    requires Numbered(d) && p(d)
    requires forall d: Desk, r: Request :: Numbered(d) && p(d) ==> (p(Step(d, r)) <==> !b(d, r))
    ensures Throughout(p, d, requests) <==> Never(b, d, requests)
  {
    hide Step, Numbered;
    if requests == [] {
      assert requests[..0] == requests;
    } else {
      var init, r := requests[..|requests| - 1], requests[|requests| - 1];
      RunKeeps(p, b, d, init);
      RunNumbered(d, init);
      assert requests == init + [r];
      ThroughoutSnoc(p, d, init, r);
      NeverSnoc(b, d, init, r);
      assert init[..|init|] == init;
      assert Throughout(p, d, init) ==> p(Run(d, init));
    }
  }

  /** Through a run the history replays to the store after every call exactly when no call of the run breaks it. */
  lemma RunKeepsHistory(d: Desk, requests: seq<Request>)
    requires Numbered(d) && Consistent(d)
    ensures Throughout(Consistent, d, requests) <==> Never(Breaks, d, requests)
  {
    hide Step, Breaks, Consistent, Numbered, Throughout, Never;
    forall d: Desk, r: Request | Numbered(d) && Consistent(d) ensures Consistent(Step(d, r)) <==> !Breaks(d, r) {
      StepKeepsHistory(d, r);
    }
    RunKeeps(Consistent, Breaks, d, requests);
  }

  // ---------- Runs in which nothing goes wrong ----------

  /** A request that names a restaurant, gives no empty status, and whose writes are not cut short. */
  predicate Sound(r: Request) {
    && !r.fault.TailFails? && !r.fault.HistoryFails?
    && (r.call.Create? ==> r.call.restaurantId != 0)
    && (r.call.Update? ==> r.call.changes.status != Some(""))
  }

  predicate ValidOrders(d: Desk) {
    forall id <- d.orders :: d.orders[id].status in VALID_STATUSES && d.orders[id].restaurantId != Some(0)
  }

  lemma SoundStep(d: Desk, r: Request)
    requires ValidOrders(d) && Sound(r)
    ensures ValidOrders(Step(d, r)) && !Breaks(d, r)
  {
    hide RestaurantAccess, Strip, Lower, OrderSms;
  }

  /** Sound requests keep every stored status valid and never break a history. */
  lemma {:induction false} SoundRunKeepsHistory(d: Desk, requests: seq<Request>)
    requires Numbered(d) && Consistent(d) && ValidOrders(d) && forall r <- requests :: Sound(r)
    ensures ValidOrders(Run(d, requests)) && Consistent(Run(d, requests))
  {
    hide Step, Breaks, Consistent, Numbered, ValidOrders, Sound;
    if requests != [] {
      var init, r := requests[..|requests| - 1], requests[|requests| - 1];
      SoundRunKeepsHistory(d, init);
      RunNumbered(d, init);
      SoundStep(Run(d, init), r);
      StepKeepsHistory(Run(d, init), r);
    }
  }

  /**
    Without the proviso on empty statuses this fails: an update with status "" passes the check meant for it and is
    stored, and the next change of status is logged as coming from "unknown".
   */
  lemma EmptyStatusBreaksHistory(admin: Claims, body: Body)
    requires admin.userType == Some("admin")
    ensures var d1 := Step(Desk(map[], 1, [], [], []), Request(admin, Create(7, None, body, None, None), NoFault));
            var d2 := Step(d1, Request(admin, Update(1, Changes(Some(""), None, None, None)), NoFault));
            var d3 := Step(d2, Request(admin, SetStatus(1, "ready"), NoFault));
            && TrailOf(d1.history, 1) == At("pending")
            && TrailOf(d2.history, 1) == At("")
            && d3.orders.Keys == {1} && d3.orders[1].status == "ready"
            && TrailOf(d3.history, 1) == Broken
  {
    hide Strip, Lower, OrderSms, TrailOf;
    var d1 := Step(Desk(map[], 1, [], [], []), Request(admin, Create(7, None, body, None, None), NoFault));
    var d2 := Step(d1, Request(admin, Update(1, Changes(Some(""), None, None, None)), NoFault));
    UnknownHasNoTrail([], 1);
    TrailGrows([], Entry(1, Created, None, "pending"), 1);
    TrailGrows(d1.history, Entry(1, Updated, Some("pending"), ""), 1);
    TrailGrows(d2.history, Entry(1, StatusChanged, Some("unknown"), "ready"), 1);
  }

  // ---------- Events and messages ----------

  function ReplyTo(d: Desk, r: Request): Reply {
    Handle(d, r.claims, r.call, r.fault).1
  }

  /**
    A successful create, and a successful update, status change or cancellation of an order whose restaurant is not 0.
   */
  predicate Announces(d: Desk, r: Request) {
    && ReplyTo(d, r).Done?
    && !r.call.Delete? && !r.call.Restore?
    && (r.call.Create? || (r.call.orderId in d.orders && d.orders[r.call.orderId].restaurantId != Some(0)))
  }

  /** The call queues the event and the messages: they, the reply and the store name one order and one status. */
  predicate Announcement(d: Desk, r: Request, e: Event, m: seq<Sms>) {
    var d', reply := Step(d, r), ReplyTo(d, r);
    && d'.events == d.events + [e] && d'.sms == d.sms + m && |m| <= 1
    && |d'.history| == |d.history| + (if r.fault.HistoryFails? then 0 else 1)
    && reply.Done? && e.orderId == reply.orderId && e.status == reply.status
    && e.orderId in d'.orders && d'.orders[e.orderId].restaurantId == Some(e.restaurantId)
    && d'.orders[e.orderId].status == e.status
    && (e.subtype == NewOrder <==> r.call.Create?)
    && (e.subtype == Cancellation <==> !r.call.Create? && Lower(reply.status) == "cancelled")
    && (m != [] ==> m[0].orderId == e.orderId && m[0].status == e.status && m[0].restaurantId == e.restaurantId
                    && m[0].phone != "" && Trimmed(m[0].phone))
  }

  lemma CreateAnnounced(d: Desk, r: Request) returns (e: Event, m: seq<Sms>)
    requires Announces(d, r) && r.call.Create?
    ensures Announcement(d, r, e, m)
  {
    hide RestaurantAccess, Strip, Lower;
    var c, id, status := r.call, d.nextId, InitialStatus(r.call.status);
    e, m := Event(c.restaurantId, id, NewOrder, status), OrderSms(c.restaurantId, id, status, c.phone);
  }

  lemma UpdateAnnounced(d: Desk, r: Request) returns (e: Event, m: seq<Sms>)
    requires Announces(d, r) && r.call.Update?
    ensures Announcement(d, r, e, m)
  {
    hide RestaurantAccess, Acceptable, Strip, Lower, OrderAccess;
    AcceptedIsKnown(d, r);
    var order, id := d.orders[r.call.orderId], r.call.orderId;
    var status := Changed(order, r.call.changes).status;
    e := Event(order.restaurantId.value, id, StatusSubtype(status), status);
    m := if Lower(Strip(status)) !in {"", Lower(Strip(order.status))}
         then OrderSms(order.restaurantId.value, id, status, order.phone) else [];
  }

  lemma StatusAnnounced(d: Desk, r: Request) returns (e: Event, m: seq<Sms>)
    requires Announces(d, r) && (r.call.SetStatus? || r.call.Cancel?)
    ensures Announcement(d, r, e, m)
  {
    hide RestaurantAccess, Acceptable, Strip, Lower, OrderAccess;
    AcceptedIsKnown(d, r);
    var order, id := d.orders[r.call.orderId], r.call.orderId;
    var status := StatusAfter(order.status, r.call);
    e := Event(order.restaurantId.value, id, StatusSubtype(status), status);
    m := OrderSms(order.restaurantId.value, id, status, order.phone);
  }

  /** Every announced call queues one event, with the status it stores and returns, and every other call none. */
  lemma OneEventPerSuccess(d: Desk, r: Request)
    ensures if Announces(d, r) then exists e, m :: Announcement(d, r, e, m)
            else Step(d, r).events == d.events && Step(d, r).sms == d.sms && Step(d, r).history == d.history
  {
    hide RestaurantAccess, Acceptable, Strip, Lower, OrderAccess, OrderSms, Announcement;
    if Announces(d, r) {
      if r.call.Create? {
        var e, m := CreateAnnounced(d, r);
      } else if r.call.Update? {
        var e, m := UpdateAnnounced(d, r);
      } else {
        var e, m := StatusAnnounced(d, r);
      }
    } else if Accepted(d, r) && !r.call.Create? {
      AcceptedIsKnown(d, r);
    }
  }

  /**
    A reply of success names an order and the status the store holds for it; a failure before the write changes
    nothing.
   */
  lemma ReplyIsStored(d: Desk, r: Request)
    ensures var d', reply := Step(d, r), ReplyTo(d, r);
            && (reply.Done? ==> reply.orderId in d'.orders && d'.orders[reply.orderId].status == reply.status)
            && (reply.Failed? && !r.fault.TailFails? ==> d' == d)
  {
    hide RestaurantAccess, Acceptable, Strip, Lower, OrderAccess, OrderSms;
    if Accepted(d, r) && !r.call.Create? {
      AcceptedIsKnown(d, r);
    }
  }

  function AnnouncedIn(d: Desk, requests: seq<Request>): nat {
    if requests == [] then 0
    else
      var init, r := requests[..|requests| - 1], requests[|requests| - 1];
      AnnouncedIn(d, init) + if Announces(Run(d, init), r) then 1 else 0
  }

  function UnloggedIn(d: Desk, requests: seq<Request>): nat {
    if requests == [] then 0
    else
      var init, r := requests[..|requests| - 1], requests[|requests| - 1];
      UnloggedIn(d, init) + if Announces(Run(d, init), r) && r.fault.HistoryFails? then 1 else 0
  }

  /** Over a run the events, and the history entries with the writes that failed, count the successful calls. */
  lemma {:induction false} EventsCountSuccesses(d: Desk, requests: seq<Request>)
    ensures |Run(d, requests).events| == |d.events| + AnnouncedIn(d, requests)
    ensures |Run(d, requests).history| + UnloggedIn(d, requests) == |d.history| + AnnouncedIn(d, requests)
    ensures |Run(d, requests).sms| <= |d.sms| + AnnouncedIn(d, requests)
  {
    hide Step, Announces, ReplyTo;
    if requests != [] {
      var init := requests[..|requests| - 1];
      EventsCountSuccesses(d, init);
      OneEventPerSuccess(Run(d, init), requests[|requests| - 1]);
    }
  }

  /** What the dashboards were last told about an order. */
  function LastShown(events: seq<Event>, id: nat): Option<string> {
    if events == [] then None
    else if events[|events| - 1].orderId == id then Some(events[|events| - 1].status)
    else LastShown(events[..|events| - 1], id)
  }

  predicate Shown(d: Desk) {
    forall id <- d.orders :: LastShown(d.events, id) == Some(d.orders[id].status)
  }

  /** A call that writes a new order or status and is not announced. */
  predicate Hides(d: Desk, r: Request) {
    && Accepted(d, r)
    && !Announces(d, r)
    && (r.call.Create? || StatusAfter(d.orders[r.call.orderId].status, r.call) != d.orders[r.call.orderId].status)
  }

  lemma NotShownYet(d: Desk, id: nat)
    requires forall e <- d.events :: e.orderId != id
    ensures LastShown(d.events, id) == None
  {
    LastShownIs(d.events, id);
  }

  lemma {:induction false} LastShownIs(events: seq<Event>, id: nat)
    ensures LastShown(events, id).Some? <==> exists e <- events :: e.orderId == id
  {
    if events != [] {
      LastShownIs(events[..|events| - 1], id);
    }
  }

  /** A call leaves the dashboards knowing every stored status exactly when it is not one of those. */
  lemma StepKeepsShown(d: Desk, r: Request)
    requires Numbered(d) && Shown(d)
    ensures Shown(Step(d, r)) <==> !Hides(d, r)
  {
    hide RestaurantAccess, Acceptable, Strip, Lower, OrderAccess, OrderSms, LastShown;
    var d' := Step(d, r);
    NotShownYet(d, d.nextId);
    if Accepted(d, r) && !r.call.Create? {
      AcceptedIsKnown(d, r);
    }
    if Announces(d, r) {
      OneEventPerSuccess(d, r);
      ReplyIsStored(d, r);
      var e, m :| Announcement(d, r, e, m);
      forall id
        ensures LastShown(d'.events, id) == if e.orderId == id then Some(e.status) else LastShown(d.events, id)
      {
        LastShownGrows(d.events, e, id);
      }
    } else {
      assert d'.events == d.events;
      assert Hides(d, r) && r.call.Create? ==> d.nextId in d'.orders;
      assert Hides(d, r) && !r.call.Create? ==> r.call.orderId in d'.orders;
    }
  }

  /** Through a run they know every stored status after every call exactly when no call of the run is one of those. */
  lemma RunKeepsShown(d: Desk, requests: seq<Request>)
    requires Numbered(d) && Shown(d)
    ensures Throughout(Shown, d, requests) <==> Never(Hides, d, requests)
  {
    hide Step, Hides, Shown, Numbered, Throughout, Never;
    forall d: Desk, r: Request | Numbered(d) && Shown(d) ensures Shown(Step(d, r)) <==> !Hides(d, r) {
      StepKeepsShown(d, r);
    }
    RunKeeps(Shown, Hides, d, requests);
  }

  lemma LastShownGrows(events: seq<Event>, e: Event, id: nat)
    ensures LastShown(events + [e], id) == if e.orderId == id then Some(e.status) else LastShown(events, id)
  {
    assert (events + [e])[..|events|] == events;
  }
}
