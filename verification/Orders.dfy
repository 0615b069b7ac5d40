/**
  The order endpoints (`app/api/dashboard_orders.py`) over the order service (`app/services/dashboard_order_service.py`)
  and the activity history. An endpoint has no await of its own, so calls follow one another undivided.
 */
module Orders {
  import opened Text
  import opened Access

  const VALID_STATUSES := {"pending", "confirmed", "preparing", "ready", "completed", "cancelled"}

  /** What an order holds beside its status; the amount is the one the service has priced. */
  datatype Body = Body(totalAmount: real, orderDetails: string, customization: string)

  /** A row of `Orders`, with the phone number of the joined user. */
  datatype Order = Order(restaurantId: Option<int>, status: string, body: Body, phone: Option<string>, deleted: bool)

  datatype Action = Created | Updated | StatusChanged | OrderCancelled

  /** A row of the activity history, as far as it speaks of the status. */
  datatype Entry = Entry(orderId: nat, action: Action, previous: Option<string>, next: string)

  datatype Subtype = NewOrder | OrderUpdate | Cancellation

  /** The background task that announces an order to the dashboards of its restaurant. */
  datatype Event = Event(restaurantId: int, orderId: nat, subtype: Subtype, status: string)

  datatype Sms = Sms(restaurantId: int, orderId: nat, status: string, phone: string)

  /** The store, the history, and the background tasks queued so far. */
  datatype Desk = Desk(orders: map<nat, Order>, nextId: nat, history: seq<Entry>, events: seq<Event>, sms: seq<Sms>)

  /**
    What goes wrong below an endpoint: nothing; the service fails before it looks at the status, or after that but
    before its write (`refused` for a `ValueError`); it fails after the write of the order's row, at the rows of its
    items or at reading it back; or only the history write fails.
   */
  datatype Fault = NoFault | LookupFails(refused: bool) | WriteFails(refused: bool) | TailFails | HistoryFails

  datatype Reply = Done(orderId: nat, status: string) | Failed(code: nat)

  datatype Changes = Changes(status: Option<string>, totalAmount: Option<real>, orderDetails: Option<string>,
                             customization: Option<string>)

  /** A request; `userPhone` is the number of the user the service creates or finds for a new order. */
  datatype Call =
    | Create(restaurantId: int, status: Option<string>, body: Body, phone: Option<string>, userPhone: Option<string>)
    | Update(orderId: nat, changes: Changes)
    | SetStatus(orderId: nat, newStatus: string)
    | Cancel(orderId: nat)
    | Delete(orderId: nat)
    | Restore(orderId: nat)

  // ---------- Pieces ----------

  function ErrorCode(refused: bool): nat {
    if refused then 400 else 500
  }

  /** `_check_order_access`: nothing when access is granted, or the status code of the error. */
  function OrderAccess(d: Desk, claims: Claims, orderId: nat): Option<nat> {
    if orderId !in d.orders || d.orders[orderId].deleted then Some(404)
    else
      var order := d.orders[orderId];
      if order.restaurantId.None? then Some(500)
      else if !RestaurantAccess(claims, order.restaurantId.value) then Some(403)
      else None
  }

  /** The message `_queue_order_sms` queues, if any. */
  function OrderSms(restaurantId: int, orderId: nat, status: string, phone: Option<string>): seq<Sms> {
    if restaurantId == 0 || phone.None? || Strip(phone.value) == "" then []
    else [Sms(restaurantId, orderId, status, Strip(phone.value))]
  }

  function Logged(history: seq<Entry>, entry: Entry, fault: Fault): seq<Entry> {
    if fault.HistoryFails? then history else history + [entry]
  }

  function OrUnknown(status: string): string {
    if status == "" then "unknown" else status
  }

  function StatusSubtype(status: string): Subtype {
    if Lower(status) == "cancelled" then Cancellation else OrderUpdate
  }

  /** `update_order` of the repository sets the fields that were given. */
  function Changed(order: Order, c: Changes): Order {
    var b := order.body;
    order.(status := if c.status.Some? then c.status.value else order.status,
           body := Body(if c.totalAmount.Some? then c.totalAmount.value else b.totalAmount,
                        if c.orderDetails.Some? then c.orderDetails.value else b.orderDetails,
                        if c.customization.Some? then c.customization.value else b.customization))
  }

  /** The history entry, the event and the message that follow a written order. */
  function Announced(d: Desk, entry: Entry, event: Event, sms: seq<Sms>, fault: Fault): Desk {
    d.(history := Logged(d.history, entry, fault), events := d.events + [event], sms := d.sms + sms)
  }

  // ---------- What each endpoint refuses ----------

  /** The status a new order gets: `request.status or "pending"`. */
  function InitialStatus(status: Option<string>): string {
    if status.Some? && status.value != "" then status.value else "pending"
  }

  /** The code a call fails with before anything is written, if it does. */
  function Refusal(d: Desk, claims: Claims, c: Call, fault: Fault): Option<nat> {
    match c
    case Create(restaurantId, status, _, _, _) =>
      if !RestaurantAccess(claims, restaurantId) then Some(403)
      else if fault.LookupFails? then Some(ErrorCode(fault.refused))
      else if InitialStatus(status) !in VALID_STATUSES then Some(400)
      else if fault.WriteFails? then Some(ErrorCode(fault.refused))
      else None
    case Restore(id) =>
      if id !in d.orders || d.orders[id].restaurantId in {None, Some(0)} then Some(404)
      else if !RestaurantAccess(claims, d.orders[id].restaurantId.value) then Some(403)
      else if fault.LookupFails? then Some(ErrorCode(fault.refused))
      else if !d.orders[id].deleted then Some(400)
      else if fault.WriteFails? then Some(ErrorCode(fault.refused))
      else None
    case _ =>
      if OrderAccess(d, claims, c.orderId).Some? then OrderAccess(d, claims, c.orderId)
      else if fault.LookupFails? then Some(ErrorCode(fault.refused))
      else if !Acceptable(d.orders[c.orderId].status, c) then Some(400)
      else if fault.WriteFails? then Some(ErrorCode(fault.refused))
      else None
  }

  /** What the service demands of the statuses, the stored one and the new one. */
  predicate Acceptable(stored: string, c: Call) {
    match c
    case Update(_, changes) =>
      && (changes.status.None? || changes.status.value == "" || changes.status.value in VALID_STATUSES)
      && (stored == "cancelled" ==> changes.status == Some("pending"))
    case SetStatus(_, newStatus) => newStatus in VALID_STATUSES
    case Cancel(_) => stored !in {"cancelled", "completed"}
    case _ => true
  }

  // ---------- What each endpoint does when it is not refused ----------

  function Written(d: Desk, c: Call, fault: Fault): (Desk, Reply)
    requires !c.Create? ==> c.orderId in d.orders && d.orders[c.orderId].restaurantId.Some?
  {
    match c
    case Create(restaurantId, _, body, phone, userPhone) =>
      var id, status := d.nextId, InitialStatus(c.status);
      var stored := d.(orders := d.orders[id := Order(Some(restaurantId), status, body, userPhone, false)],
                       nextId := id + 1);
      if fault.TailFails? then (stored, Failed(500))
      else
        (Announced(stored, Entry(id, Created, None, status), Event(restaurantId, id, NewOrder, status),
                   OrderSms(restaurantId, id, status, phone), fault),
         Done(id, status))
    case Update(id, changes) =>
      var order := d.orders[id];
      var updated := Changed(order, changes);
      var stored, restaurantId := d.(orders := d.orders[id := updated]), order.restaurantId.value;
      if fault.TailFails? then (stored, Failed(500))
      else if restaurantId == 0 then (stored, Done(id, updated.status))
      else
        (Announced(stored, Entry(id, Updated, Some(order.status), updated.status),
                   Event(restaurantId, id, StatusSubtype(updated.status), updated.status),
                   if Lower(Strip(updated.status)) !in {"", Lower(Strip(order.status))}
                   then OrderSms(restaurantId, id, updated.status, order.phone) else [], fault),
         Done(id, updated.status))
    case SetStatus(id, newStatus) => StatusWritten(d, id, StatusChanged, newStatus, fault)
    case Cancel(id) => StatusWritten(d, id, OrderCancelled, "cancelled", fault)
    case _ =>
      var order := d.orders[c.orderId];
      (d.(orders := d.orders[c.orderId := order.(deleted := c.Delete?)]), Done(c.orderId, order.status))
  }

  /** What `update_order_status` and `cancel_order` share. */
  function StatusWritten(d: Desk, id: nat, action: Action, status: string, fault: Fault): (Desk, Reply)
    requires id in d.orders && d.orders[id].restaurantId.Some?
  {
    var order := d.orders[id];
    var stored, restaurantId := d.(orders := d.orders[id := order.(status := status)]), order.restaurantId.value;
    if restaurantId == 0 then (stored, Done(id, status))
    else
      (Announced(stored, Entry(id, action, Some(OrUnknown(order.status)), status),
                 Event(restaurantId, id, StatusSubtype(status), status),
                 OrderSms(restaurantId, id, status, order.phone), fault),
       Done(id, status))
  }

  /** A whole call. */
  function Handle(d: Desk, claims: Claims, c: Call, fault: Fault): (Desk, Reply) {
    var refusal := Refusal(d, claims, c, fault);
    if refusal.Some? then (d, Failed(refusal.value)) else Written(d, c, fault)
  }

  // ---------- The endpoints as they run ----------

  class OrderDesk {
    var orders: map<nat, Order>
    var nextId: nat
    var history: seq<Entry>
    var events: seq<Event>
    var sms: seq<Sms>

    function State(): Desk
      reads this
    {
      Desk(orders, nextId, history, events, sms)
    }

    constructor ()
      ensures State() == Desk(map[], 1, [], [], [])
    {
      orders, nextId, history, events, sms := map[], 1, [], [], [];
    }

    /** `_queue_order_sms`. */
    method QueueOrderSms(restaurantId: int, orderId: nat, status: string, phone: Option<string>)
      modifies this`sms
      ensures sms == old(sms) + OrderSms(restaurantId, orderId, status, phone)
    {
      if restaurantId == 0 || phone.None? || Strip(phone.value) == "" {
        return;
      }
      sms := sms + [Sms(restaurantId, orderId, status, Strip(phone.value))];
    }

    /** `_check_order_access`. */
    method CheckOrderAccess(claims: Claims, orderId: nat) returns (order: Option<Order>, code: nat)
      ensures var denied := OrderAccess(State(), claims, orderId);
              if denied.Some? then order.None? && code == denied.value
              else orderId in orders && order == Some(orders[orderId])
      ensures order.Some? ==> order.value.restaurantId.Some?
    {
      code := 200;
      if orderId !in orders || orders[orderId].deleted {
        return None, 404;
      }
      order := Some(orders[orderId]);
      if order.value.restaurantId.None? {
        return None, 500;
      }
      if !RestaurantAccess(claims, order.value.restaurantId.value) {
        return None, 403;
      }
    }

    /** The `try` around a history write swallows its failure. */
    method LogHistory(entry: Entry, fault: Fault)
      modifies this`history
      ensures history == Logged(old(history), entry, fault)
    {
      if !fault.HistoryFails? {
        history := history + [entry];
      }
    }

    /** `create_order`. */
    method CreateOrder(claims: Claims, restaurantId: int, status: Option<string>, body: Body, phone: Option<string>,
                       userPhone: Option<string>, fault: Fault) returns (reply: Reply)
      modifies this
      ensures (State(), reply)
           == Handle(old(State()), claims, Create(restaurantId, status, body, phone, userPhone), fault)
    {
      hide RestaurantAccess, Strip, Lower;
      if !RestaurantAccess(claims, restaurantId) {
        return Failed(403);
      }
      var initial := if status.Some? && status.value != "" then status.value else "pending";
      if fault.LookupFails? {
        return Failed(ErrorCode(fault.refused));
      }
      if initial !in VALID_STATUSES {
        return Failed(400);
      }
      if fault.WriteFails? {
        return Failed(ErrorCode(fault.refused));
      }
      var id := nextId;
      orders, nextId := orders[id := Order(Some(restaurantId), initial, body, userPhone, false)], id + 1;
      if fault.TailFails? {
        return Failed(500);
      }
      LogHistory(Entry(id, Created, None, initial), fault);
      events := events + [Event(restaurantId, id, NewOrder, initial)];
      QueueOrderSms(restaurantId, id, initial, phone);
      return Done(id, initial);
    }

    /** `update_order`. */
    method UpdateOrder(claims: Claims, orderId: nat, changes: Changes, fault: Fault) returns (reply: Reply)
      modifies this
      ensures (State(), reply) == Handle(old(State()), claims, Update(orderId, changes), fault)
    {
      hide RestaurantAccess, Strip, Lower;
      var order, code := CheckOrderAccess(claims, orderId);
      if order.None? {
        return Failed(code);
      }
      if fault.LookupFails? {
        return Failed(ErrorCode(fault.refused));
      }
      if changes.status.Some? && changes.status.value != "" && changes.status.value !in VALID_STATUSES {
        return Failed(400);
      }
      if order.value.status == "cancelled" && changes.status != Some("pending") {
        return Failed(400);
      }
      if fault.WriteFails? {
        return Failed(ErrorCode(fault.refused));
      }
      var restaurantId, previous := order.value.restaurantId.value, order.value.status;
      orders := orders[orderId := Changed(order.value, changes)];
      if fault.TailFails? {
        return Failed(500);
      }
      var status := orders[orderId].status;
      if restaurantId != 0 {
        LogHistory(Entry(orderId, Updated, Some(previous), status), fault);
        events := events + [Event(restaurantId, orderId, StatusSubtype(status), status)];
        if Lower(Strip(status)) != "" && Lower(Strip(previous)) != Lower(Strip(status)) {
          QueueOrderSms(restaurantId, orderId, status, order.value.phone);
        } else {
          assert sms == sms + [];
        }
      }
      return Done(orderId, status);
    }

    /** `update_order_status`. */
    method UpdateOrderStatus(claims: Claims, orderId: nat, status: string, fault: Fault) returns (reply: Reply)
      modifies this
      ensures (State(), reply) == Handle(old(State()), claims, SetStatus(orderId, status), fault)
    {
      hide RestaurantAccess, Strip, Lower;
      var order, code := CheckOrderAccess(claims, orderId);
      if order.None? {
        return Failed(code);
      }
      if fault.LookupFails? {
        return Failed(ErrorCode(fault.refused));
      }
      if status !in VALID_STATUSES {
        return Failed(400);
      }
      if fault.WriteFails? {
        return Failed(ErrorCode(fault.refused));
      }
      var restaurantId := order.value.restaurantId.value;
      orders := orders[orderId := order.value.(status := status)];
      if restaurantId != 0 {
        LogHistory(Entry(orderId, StatusChanged, Some(OrUnknown(order.value.status)), status), fault);
        events := events + [Event(restaurantId, orderId, StatusSubtype(status), status)];
        QueueOrderSms(restaurantId, orderId, status, order.value.phone);
      }
      return Done(orderId, status);
    }

    /** `cancel_order`. */
    method CancelOrder(claims: Claims, orderId: nat, fault: Fault) returns (reply: Reply)
      modifies this
      ensures (State(), reply) == Handle(old(State()), claims, Cancel(orderId), fault)
    {
      hide RestaurantAccess, Strip;
      var order, code := CheckOrderAccess(claims, orderId);
      if order.None? {
        return Failed(code);
      }
      if fault.LookupFails? {
        return Failed(ErrorCode(fault.refused));
      }
      if order.value.status == "cancelled" || order.value.status == "completed" {
        return Failed(400);
      }
      if fault.WriteFails? {
        return Failed(ErrorCode(fault.refused));
      }
      var restaurantId := order.value.restaurantId.value;
      orders := orders[orderId := order.value.(status := "cancelled")];
      if restaurantId != 0 {
        LogHistory(Entry(orderId, OrderCancelled, Some(OrUnknown(order.value.status)), "cancelled"), fault);
        events := events + [Event(restaurantId, orderId, Cancellation, "cancelled")];
        assert Lower("cancelled") == "cancelled";
        QueueOrderSms(restaurantId, orderId, "cancelled", order.value.phone);
      }
      return Done(orderId, "cancelled");
    }

    /** `delete_order` (a soft delete): no entry, no event, no message. */
    method DeleteOrder(claims: Claims, orderId: nat, fault: Fault) returns (reply: Reply)
      modifies this`orders
      ensures (State(), reply) == Handle(old(State()), claims, Delete(orderId), fault)
    {
      hide RestaurantAccess, Strip, Lower;
      var order, code := CheckOrderAccess(claims, orderId);
      if order.None? {
        return Failed(code);
      }
      if fault.LookupFails? || fault.WriteFails? {
        return Failed(ErrorCode(fault.refused));
      }
      orders := orders[orderId := order.value.(deleted := true)];
      return Done(orderId, order.value.status);
    }

    /** `restore_order`. */
    method RestoreOrder(claims: Claims, orderId: nat, fault: Fault) returns (reply: Reply)
      modifies this`orders
      ensures (State(), reply) == Handle(old(State()), claims, Restore(orderId), fault)
    {
      hide RestaurantAccess, Strip, Lower;
      if orderId !in orders || orders[orderId].restaurantId in {None, Some(0)} {
        return Failed(404);
      }
      var order := orders[orderId];
      if !RestaurantAccess(claims, order.restaurantId.value) {
        return Failed(403);
      }
      if fault.LookupFails? {
        return Failed(ErrorCode(fault.refused));
      }
      if !order.deleted {
        return Failed(400);
      }
      if fault.WriteFails? {
        return Failed(ErrorCode(fault.refused));
      }
      orders := orders[orderId := order.(deleted := false)];
      return Done(orderId, order.status);
    }
  }
}
