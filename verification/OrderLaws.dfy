/** What each order call may do and does, stated of the request, the stored order and the faults alone. */
module OrderLaws {
  import opened Text
  import opened Access
  import opened Orders

  /**
    Nothing is done or changed but for an admin, or a user of the order's own restaurant (of the request's, for a
    create).
   */
  lemma OnlyOwnersAct(d: Desk, claims: Claims, c: Call, fault: Fault)
    ensures var (d', reply) := Handle(d, claims, c, fault);
            reply.Done? || d' != d ==>
              || claims.userType == Some("admin")
              || (&& claims.userType == Some("restaurant") && claims.restaurantId.Some?
                  && if c.Create? then claims.restaurantId.value == c.restaurantId
                     else c.orderId in d.orders && d.orders[c.orderId].restaurantId == claims.restaurantId)
  {
    hide Acceptable, InitialStatus, Written;
  }

  /**
    Exactly when a call is forbidden: the order is there to be judged, and the user is neither an admin nor of its
    restaurant.
   */
  lemma ForbiddenIff(d: Desk, claims: Claims, c: Call, fault: Fault)
    ensures Handle(d, claims, c, fault).1 == Failed(403) <==>
            (&& (|| c.Create?
                 || (&& c.orderId in d.orders && d.orders[c.orderId].restaurantId.Some?
                     && if c.Restore? then d.orders[c.orderId].restaurantId != Some(0)
                         else !d.orders[c.orderId].deleted))
             && claims.userType != Some("admin")
             && !(&& claims.userType == Some("restaurant")
                  && claims.restaurantId
                     == if c.Create? then Some(c.restaurantId) else d.orders[c.orderId].restaurantId))
  {
    hide Acceptable, InitialStatus;
  }

  /** Exactly when an order is not found: a deleted one can only be restored. */
  lemma NotFoundIff(d: Desk, claims: Claims, c: Call, fault: Fault)
    ensures Handle(d, claims, c, fault).1 == Failed(404) <==>
            (&& !c.Create?
             && (|| c.orderId !in d.orders
                 || if c.Restore? then d.orders[c.orderId].restaurantId in {None, Some(0)}
                     else d.orders[c.orderId].deleted))
  {
    hide Acceptable, InitialStatus, RestaurantAccess;
  }

  // ---------- When a call that may be made succeeds ----------

  /** The user may make the call, and an order it names is there, with a restaurant. */
  predicate Reaches(d: Desk, claims: Claims, c: Call, fault: Fault) {
    && Handle(d, claims, c, fault).1 !in {Failed(403), Failed(404)}
    && (!c.Create? ==> c.orderId in d.orders && d.orders[c.orderId].restaurantId.Some?)
  }

  /** An order without a restaurant is a server error to everybody. */
  lemma NoRestaurantFails(d: Desk, claims: Claims, c: Call, fault: Fault)
    requires !c.Create? && !c.Restore?
    requires c.orderId in d.orders && !d.orders[c.orderId].deleted && d.orders[c.orderId].restaurantId.None?
    ensures Handle(d, claims, c, fault) == (d, Failed(500))
  {
  }

  /** The statuses that exist. */
  lemma StatusesAre(status: string)
    ensures status in VALID_STATUSES <==>
            status in {"pending", "confirmed", "preparing", "ready", "completed", "cancelled"}
  {
  }

  /** A new order may leave its status open; otherwise it needs one that exists. */
  lemma CreateSucceedsIff(d: Desk, claims: Claims, c: Call, fault: Fault)
    requires c.Create? && Reaches(d, claims, c, fault)
    ensures var reply := Handle(d, claims, c, fault).1;
            var fits := c.status in {None, Some("")} || c.status.value in VALID_STATUSES;
            && (reply.Done? <==> fits && fault in {NoFault, HistoryFails})
            && (reply == Failed(500) <==>
                fault == LookupFails(false) || (fits && fault in {WriteFails(false), TailFails}))
            && (reply.Failed? ==> reply.code in {400, 500})
  {
    assert "pending" in VALID_STATUSES;
    assert c.status == Some("") <==> c.status.Some? && c.status.value == "";
    hide RestaurantAccess, OrderSms;
  }

  /** A cancelled order can only be set back to "pending"; else a status that is given, and not empty, must exist. */
  lemma UpdateSucceedsIff(d: Desk, claims: Claims, c: Call, fault: Fault)
    requires c.Update? && Reaches(d, claims, c, fault)
    ensures var reply := Handle(d, claims, c, fault).1;
            var fits := if d.orders[c.orderId].status == "cancelled" then c.changes.status == Some("pending")
                        else c.changes.status in {None, Some("")} || c.changes.status.value in VALID_STATUSES;
            && (reply.Done? <==> fits && fault in {NoFault, HistoryFails})
            && (reply == Failed(500) <==>
                fault == LookupFails(false) || (fits && fault in {WriteFails(false), TailFails}))
            && (reply.Failed? ==> reply.code in {400, 500})
  {
    assert "pending" in VALID_STATUSES;
    assert c.changes.status == Some("") <==> c.changes.status.Some? && c.changes.status.value == "";
    hide RestaurantAccess, OrderSms, Strip, Lower;
  }

  /** Any status that exists can be set. */
  lemma SetStatusSucceedsIff(d: Desk, claims: Claims, c: Call, fault: Fault)
    requires c.SetStatus? && Reaches(d, claims, c, fault)
    ensures var reply := Handle(d, claims, c, fault).1;
            var fits := c.newStatus in VALID_STATUSES;
            && (reply.Done? <==> fits && fault in {NoFault, TailFails, HistoryFails})
            && (reply == Failed(500) <==> fault == LookupFails(false) || (fits && fault == WriteFails(false)))
            && (reply.Failed? ==> reply.code in {400, 500})
  {
    hide RestaurantAccess, OrderSms, Lower;
  }

  /** Exactly the orders that are neither cancelled nor completed can be cancelled. */
  lemma CancelSucceedsIff(d: Desk, claims: Claims, c: Call, fault: Fault)
    requires c.Cancel? && Reaches(d, claims, c, fault)
    ensures var reply := Handle(d, claims, c, fault).1;
            var fits := d.orders[c.orderId].status != "cancelled" && d.orders[c.orderId].status != "completed";
            && (reply.Done? <==> fits && fault in {NoFault, TailFails, HistoryFails})
            && (reply == Failed(500) <==> fault == LookupFails(false) || (fits && fault == WriteFails(false)))
            && (reply.Failed? ==> reply.code in {400, 500})
  {
    hide RestaurantAccess, OrderSms, Lower;
  }

  /** Only a deleted order can be restored; a delete reaches only orders that are not. */
  lemma DeleteAndRestoreSucceedIff(d: Desk, claims: Claims, c: Call, fault: Fault)
    requires (c.Delete? || c.Restore?) && Reaches(d, claims, c, fault)
    ensures var reply := Handle(d, claims, c, fault).1;
            var fits := c.Delete? || d.orders[c.orderId].deleted;
            && (c.Delete? ==> !d.orders[c.orderId].deleted)
            && (reply.Done? <==> fits && fault in {NoFault, TailFails, HistoryFails})
            && (reply == Failed(500) <==> fault == LookupFails(false) || (fits && fault == WriteFails(false)))
            && (reply.Failed? ==> reply.code in {400, 500})
  {
    hide RestaurantAccess;
  }

  // ---------- What a success writes ----------

  /** A create adds one order, under the id it replies with, and touches no other. */
  lemma CreateWrites(d: Desk, claims: Claims, c: Call, fault: Fault)
    requires c.Create? && Handle(d, claims, c, fault).1.Done?
    ensures var (d', reply) := Handle(d, claims, c, fault);
            && reply.orderId == d.nextId && d'.nextId == d.nextId + 1
            && d'.orders.Keys == d.orders.Keys + {reply.orderId}
            && (forall id <- d.orders :: id != reply.orderId ==> d'.orders[id] == d.orders[id])
            && var order := d'.orders[reply.orderId];
               && order.restaurantId == Some(c.restaurantId) && order.body == c.body && order.phone == c.userPhone
               && !order.deleted
               && order.status == if c.status.Some? && c.status.value != "" then c.status.value else "pending"
  {
    hide RestaurantAccess, OrderSms;
  }

  /** Every other call writes at most its own order, and of that only what it is about. */
  lemma OthersWrite(d: Desk, claims: Claims, c: Call, fault: Fault)
    requires !c.Create? && Handle(d, claims, c, fault).1.Done?
    ensures var d' := Handle(d, claims, c, fault).0;
            && d'.nextId == d.nextId && d'.orders.Keys == d.orders.Keys && c.orderId in d.orders
            && (forall id <- d.orders :: id != c.orderId ==> d'.orders[id] == d.orders[id])
            && var old_, new_ := d.orders[c.orderId], d'.orders[c.orderId];
               && new_.restaurantId == old_.restaurantId && new_.phone == old_.phone
               && (new_.deleted <==> c.Delete? || (!c.Restore? && old_.deleted))
               && (!c.Update? ==> new_.body == old_.body)
               && (c.SetStatus? ==> new_.status == c.newStatus)
               && (c.Cancel? ==> new_.status == "cancelled")
               && (c.Delete? || c.Restore? ==> new_.status == old_.status)
  {
    hide RestaurantAccess, OrderSms, Acceptable, Strip, Lower;
  }

  /** An update sets exactly the fields that were given, also when what comes after the write fails. */
  lemma UpdateWrites(d: Desk, claims: Claims, c: Call, fault: Fault)
    requires c.Update? && (Handle(d, claims, c, fault).1.Done? || Handle(d, claims, c, fault).0 != d)
    ensures var d' := Handle(d, claims, c, fault).0;
            && c.orderId in d.orders && c.orderId in d'.orders
            && var old_, new_, given := d.orders[c.orderId], d'.orders[c.orderId], c.changes;
               && new_.status == (if given.status.Some? then given.status.value else old_.status)
               && new_.body.totalAmount
                  == (if given.totalAmount.Some? then given.totalAmount.value else old_.body.totalAmount)
               && new_.body.orderDetails
                  == (if given.orderDetails.Some? then given.orderDetails.value else old_.body.orderDetails)
               && new_.body.customization
                  == (if given.customization.Some? then given.customization.value else old_.body.customization)
  {
    hide RestaurantAccess, OrderSms, Acceptable, Strip, Lower;
  }

  // ---------- What follows a success ----------

  /** The entry a call logs, the event it queues and the message it sends, from the call and the two rows. */
  lemma FollowedBy(d: Desk, claims: Claims, c: Call, fault: Fault)
    requires Handle(d, claims, c, fault).1.Done?
    ensures var (d', reply) := Handle(d, claims, c, fault);
            && reply.orderId in d'.orders && d'.orders[reply.orderId].restaurantId.Some?
            && (!c.Create? ==> c.orderId in d.orders)
            && if c.Delete? || c.Restore? || (!c.Create? && d'.orders[reply.orderId].restaurantId == Some(0))
               then d'.history == d.history && d'.events == d.events && d'.sms == d.sms
               else
                 var new_, id := d'.orders[reply.orderId], reply.orderId;
                 var previous := if c.Create? then None
                                 else if !c.Update? && d.orders[id].status == "" then Some("unknown")
                                 else Some(d.orders[id].status);
                 var action := if c.Create? then Created else if c.Update? then Updated
                               else if c.SetStatus? then StatusChanged else OrderCancelled;
                 var subtype := if c.Create? then NewOrder
                                else if Lower(new_.status) == "cancelled" then Cancellation else OrderUpdate;
                 && d'.history == (if fault.HistoryFails? then d.history
                                   else d.history + [Entry(id, action, previous, new_.status)])
                 && d'.events == d.events + [Event(new_.restaurantId.value, id, subtype, new_.status)]
  {
    hide RestaurantAccess, OrderSms, Acceptable, Strip;
    assert Lower("cancelled") == "cancelled";
  }

  /** The number a message would go to: the one in the request for a new order, else the one on the order. */
  function Number(d: Desk, c: Call): Option<string>
    requires !c.Create? ==> c.orderId in d.orders
  {
    if c.Create? then c.phone else d.orders[c.orderId].phone
  }

  /**
    Exactly when a success sends a message: its restaurant is not 0 and the number not blank, and for an update the
    status is not blank and differs from the old one in more than case and outer blanks. It goes to the trimmed number.
   */
  lemma MessageIff(d: Desk, claims: Claims, c: Call, fault: Fault)
    requires Handle(d, claims, c, fault).1.Done?
    ensures var (d', reply) := Handle(d, claims, c, fault);
            && reply.orderId in d'.orders && d'.orders[reply.orderId].restaurantId.Some?
            && (!c.Create? ==> c.orderId in d.orders)
            && var restaurantId, status := d'.orders[reply.orderId].restaurantId.value, d'.orders[reply.orderId].status;
               d'.sms == d.sms +
                 if (&& !c.Delete? && !c.Restore? && restaurantId != 0
                     && Number(d, c).Some? && !Blank(Number(d, c).value)
                     && (c.Update? ==>
                           !Blank(status) && Lower(Strip(status)) != Lower(Strip(d.orders[c.orderId].status))))
                 then [Sms(restaurantId, reply.orderId, status, Strip(Number(d, c).value))] else []
  {
    hide RestaurantAccess, Acceptable, Strip, Lower, Blank;
    assert d.sms + [] == d.sms;
  }
}
