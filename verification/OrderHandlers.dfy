/**
 * The handlers of internal/api/orders.go, orderitems.go and orderjobs.go as they run: check after
 * check with early answers, then one write through the pool. Each is the decision of module
 * Handlers followed by its statement, and answers accordingly; None is success.
 */
module OrderHandlers {
  import opened Prelude
  import opened Schema
  import opened Sql
  import opened Handlers
  import opened Database

  function Translated(err: Option<DbError>): Option<Fault> {
    match err
    case None => None
    case Some(e) => Some(FaultOf(e))
  }

  class OrderApi {
    const pool: Pool

    constructor (pool: Pool)
      ensures this.pool == pool
    {
      this.pool := pool;
    }

    method Create(now: Time, who: Option<Principal>, uuid: Id, at: Id, fulfilment: Fulfilment, fulfilmentAt: Time,
                  deadlineAt: Time, collector: Option<Id>, pickup: Option<Id>) returns (fault: Option<Fault>)
      modifies pool
      ensures var req := CreateIt(uuid, at, fulfilment, fulfilmentAt, deadlineAt, collector, pickup);
              pool.db == Handle(old(pool.db), now, who, req) && fault == Answer(old(pool.db), now, who, req)
    {
      if who.None? {
        return Some(NotAuthenticated);
      }
      if !DeadlineInOrder(deadlineAt, fulfilmentAt) {
        return Some(DeadlineAfterFulfil);
      }
      if !(deadlineAt > now) {
        return Some(DeadlineInThePast);
      }
      if !NamesAPerson(pool.db, collector) {
        return Some(InvalidField);
      }
      if !NamesAPerson(pool.db, pickup) {
        return Some(InvalidField);
      }
      var err := pool.CreateOrder(uuid, who.value.id, at, fulfilment, fulfilmentAt, deadlineAt, collector, pickup);
      if err == Some(NotFound) {
        return Some(InvalidField);
      }
      return Translated(err);
    }

    /** validateOrderPatch, field by field; the two times start from the stored ones. */
    method ValidatePatch(order: Id, body: OrderUpdate) returns (fault: Option<Fault>)
      requires order in pool.db.orders
      ensures fault == ValidateOrderPatch(pool.db, order, body)
    {
      if body.restaurant.Some? {
        if HasItems(pool.db, order) {
          return Some(LockedRestaurant);
        }
        if !Living(pool.db, body.restaurant.value) {
          return Some(InvalidField);
        }
      }
      var fulfilmentAt := pool.db.orders[order].fulfilmentAt;
      var deadlineAt := pool.db.orders[order].deadlineAt;
      if body.fulfilmentAt.Some? {
        fulfilmentAt := body.fulfilmentAt.value;
      }
      if body.deadlineAt.Some? {
        deadlineAt := body.deadlineAt.value;
      }
      if !DeadlineInOrder(deadlineAt, fulfilmentAt) {
        return Some(DeadlineAfterFulfil);
      }
      if body.collector.Some? && !NamesAPerson(pool.db, body.collector.value) {
        return Some(InvalidField);
      }
      if body.pickup.Some? && !NamesAPerson(pool.db, body.pickup.value) {
        return Some(InvalidField);
      }
      return None;
    }

    method Patch(now: Time, who: Option<Principal>, order: Id, body: OrderUpdate) returns (fault: Option<Fault>)
      modifies pool
      ensures pool.db == Handle(old(pool.db), now, who, PatchIt(order, body))
      ensures fault == Answer(old(pool.db), now, who, PatchIt(order, body))
    {
      if order !in pool.db.orders {
        return Some(NotFoundHere);
      }
      if who.None? {
        return Some(NotAuthenticated);
      }
      if !MayAct(who, pool.db.orders[order].creator) {
        return Some(NotOrderCreator);
      }
      if !Active(pool.db.orders[order], now) {
        return Some(OrderClosed);
      }
      fault := ValidatePatch(order, body);
      if fault.Some? {
        return fault;
      }
      var err := pool.UpdateOrder(order, body);
      return Translated(err);
    }

    method Remove(now: Time, who: Option<Principal>, order: Id) returns (fault: Option<Fault>)
      modifies pool
      ensures pool.db == Handle(old(pool.db), now, who, RemoveIt(order))
      ensures fault == Answer(old(pool.db), now, who, RemoveIt(order))
    {
      if order !in pool.db.orders {
        return Some(NotFoundHere);
      }
      if who.None? {
        return Some(NotAuthenticated);
      }
      if !MayAct(who, pool.db.orders[order].creator) {
        return Some(NotOrderCreator);
      }
      var err := pool.DeleteOrder(order);
      return Translated(err);
    }

    method AddOneItem(now: Time, who: Option<Principal>, order: Id, uuid: Id, dish: Id, quantity: int, note: string,
                      chosen: seq<Id>, served: bool, uuids: seq<Id>)
      returns (fault: Option<Fault>, ghost minted: map<Id, Id>)
      requires |uuids| >= |chosen|
      requires forall j, k | 0 <= j < k < |uuids| :: uuids[j] != uuids[k]
      requires forall k | 0 <= k < |uuids| :: uuids[k] !in pool.db.snaps
      modifies pool
      ensures var req := AddItem(order, uuid, dish, quantity, note, chosen, served, minted);
              pool.db == Handle(old(pool.db), now, who, req) && fault == Answer(old(pool.db), now, who, req)
    {
      minted := map[];
      if order !in pool.db.orders {
        return Some(NotFoundHere), minted;
      }
      if who.None? {
        return Some(NotAuthenticated), minted;
      }
      if !Active(pool.db.orders[order], now) {
        return Some(OrderClosed), minted;
      }
      fault := ValidateQuantity(quantity);
      if fault.Some? {
        return fault, minted;
      }
      var err;
      err, minted := pool.AddOrderItem(uuid, order, who.value.id, dish, quantity, note, chosen, served, uuids);
      fault := Translated(err);
    }

    /** Authentication, then the deadline, then ownership: the middle one matters. */
    method PatchOneItem(now: Time, who: Option<Principal>, order: Id, item: Id, quantity: Option<int>,
                        note: Option<string>, chosen: Option<seq<Id>>, uuids: seq<Id>)
      returns (fault: Option<Fault>, ghost minted: map<Id, Id>)
      requires chosen.Some? ==> |uuids| >= |chosen.value|
      requires forall j, k | 0 <= j < k < |uuids| :: uuids[j] != uuids[k]
      requires forall k | 0 <= k < |uuids| :: uuids[k] !in pool.db.snaps
      modifies pool
      ensures var req := PatchItem(order, item, quantity, note, chosen, minted);
              pool.db == Handle(old(pool.db), now, who, req) && fault == Answer(old(pool.db), now, who, req)
    {
      minted := map[];
      if !ItemInOrder(pool.db, order, item) {
        return Some(NotFoundHere), minted;
      }
      if who.None? {
        return Some(NotAuthenticated), minted;
      }
      if !Active(pool.db.orders[order], now) {
        return Some(OrderClosed), minted;
      }
      if !MayAct(who, pool.db.items[item].user) {
        return Some(NotItemOwner), minted;
      }
      if quantity.Some? {
        fault := ValidateQuantity(quantity.value);
        if fault.Some? {
          return fault, minted;
        }
      }
      var err;
      err, minted := pool.UpdateOrderItem(item, quantity, note, chosen, uuids);
      fault := Translated(err);
    }

    method DeleteOneItem(now: Time, who: Option<Principal>, order: Id, item: Id) returns (fault: Option<Fault>)
      modifies pool
      ensures pool.db == Handle(old(pool.db), now, who, DeleteItem(order, item))
      ensures fault == Answer(old(pool.db), now, who, DeleteItem(order, item))
    {
      if !ItemInOrder(pool.db, order, item) {
        return Some(NotFoundHere);
      }
      if who.None? {
        return Some(NotAuthenticated);
      }
      if !Active(pool.db.orders[order], now) {
        return Some(OrderClosed);
      }
      if !MayAct(who, pool.db.items[item].user) {
        return Some(NotItemOwner);
      }
      var err := pool.DeleteOrderItem(item);
      return Translated(err);
    }

    method SetPaid(now: Time, who: Option<Principal>, order: Id, item: Id, paid: Option<bool>) returns (fault: Option<Fault>)
      modifies pool
      ensures pool.db == Handle(old(pool.db), now, who, SetItemPaid(order, item, paid))
      ensures fault == Answer(old(pool.db), now, who, SetItemPaid(order, item, paid))
    {
      if !ItemInOrder(pool.db, order, item) {
        return Some(NotFoundHere);
      }
      if who.None? {
        return Some(NotAuthenticated);
      }
      var me := who.value.id;
      var o := pool.db.orders[order];
      var mayTick := who.value.admin || pool.db.items[item].user == me || o.creator == me
                     || (o.collector.Some? && o.collector.value == me);
      if !mayTick {
        return Some(NotItemOwner);
      }
      if paid.None? {
        return Some(MissingField);
      }
      var err := pool.SetOrderItemPaid(item, paid.value);
      return Translated(err);
    }

    method Claim(now: Time, who: Option<Principal>, order: Id, job: Job) returns (fault: Option<Fault>)
      modifies pool
      ensures pool.db == Handle(old(pool.db), now, who, ClaimJob(order, job))
      ensures fault == Answer(old(pool.db), now, who, ClaimJob(order, job))
    {
      if order !in pool.db.orders {
        return Some(NotFoundHere);
      }
      if who.None? {
        return Some(NotAuthenticated);
      }
      if !Active(pool.db.orders[order], now) {
        return Some(OrderClosed);
      }
      if Holder(pool.db.orders[order], job) != None {
        return Some(JobTaken);
      }
      var err := pool.UpdateOrder(order, Assign(job, Some(who.value.id)));
      return Translated(err);
    }

    method Release(now: Time, who: Option<Principal>, order: Id, job: Job) returns (fault: Option<Fault>)
      modifies pool
      ensures pool.db == Handle(old(pool.db), now, who, ReleaseJob(order, job))
      ensures fault == Answer(old(pool.db), now, who, ReleaseJob(order, job))
    {
      if order !in pool.db.orders {
        return Some(NotFoundHere);
      }
      if who.None? {
        return Some(NotAuthenticated);
      }
      var me := who.value.id;
      var o := pool.db.orders[order];
      var holder := Holder(o, job);
      var allowed := who.value.admin || o.creator == me || (holder.Some? && holder.value == me);
      if !allowed {
        return Some(NotJobHolder);
      }
      if !Active(o, now) {
        return Some(OrderClosed);
      }
      if holder == None {
        return None;
      }
      var err := pool.UpdateOrder(order, Assign(job, None));
      return Translated(err);
    }
  }
}
