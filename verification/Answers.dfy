/**
 * What an answer tells whoever asked: a refusal that nothing happened, a success who asked, what the
 * tables were like and what has become of them, and which refusal comes first where several apply.
 */
module Answers {
  import opened Prelude
  import opened Schema
  import opened Sql
  import opened SqlInvariants
  import opened Sparing
  import opened Handlers
  import opened Interleaving
  import opened Effects
  import opened Deletion

  lemma DecidedIsNoCategory(db: Db, now: Time, who: Option<Principal>, req: Request)
    ensures Decide(db, now, who, req).Ok? ==> !Decide(db, now, who, req).value.SoftDeleteCategory?
  {}

  /** A request that is refused changes nothing; one that is not did what its one statement does. */
  lemma RefusalChangesNothing(db: Db, now: Time, who: Option<Principal>, req: Request)
    ensures Answer(db, now, who, req).Some? ==> Handle(db, now, who, req) == db
    ensures Answer(db, now, who, req).None? ==>
      && Decide(db, now, who, req).Ok? && Exec(db, Decide(db, now, who, req).value).Ok?
      && Handle(db, now, who, req) == Exec(db, Decide(db, now, who, req).value).value
  {
    DecidedIsNoCategory(db, now, who, req);
    hide Decide, Exec;
  }

  /** Nobody does anything unauthenticated; a missing order or item is told first. */
  lemma StrangersAreRefused(db: Db, now: Time, req: Request)
    ensures Answer(db, now, None, req) == Some(NotFoundHere) || Answer(db, now, None, req) == Some(NotAuthenticated)
    ensures Handle(db, now, None, req) == db
  {
    hide Exec;
  }

  /**
   * After the deadline: items and jobs answer that the order is closed, items even to those whose
   * they are not; the order itself and a job given up tell strangers first that they are strangers;
   * removing the order and ticking what is paid never answer so.
   */
  lemma ClosedOrderAnswers(db: Db, now: Time, who: Principal, req: Request)
    requires !req.CreateIt? && !req.DeleteUser?
    requires req.order in db.orders && db.orders[req.order].deadlineAt <= now
    requires (req.PatchItem? || req.DeleteItem? || req.SetItemPaid? ==>
                req.item in db.items && db.items[req.item].order == req.order)
    ensures var answer, o := Answer(db, now, Some(who), req), db.orders[req.order];
      match req
      case PatchIt(_, _) => answer == Some(if who.id == o.creator || who.admin then OrderClosed else NotOrderCreator)
      case ReleaseJob(_, FetchingTheFood) =>
        answer == Some(if o.pickup == Some(who.id) || who.id == o.creator || who.admin then OrderClosed else NotJobHolder)
      case ReleaseJob(_, CollectingTheMoney) =>
        answer == Some(if o.collector == Some(who.id) || who.id == o.creator || who.admin then OrderClosed else NotJobHolder)
      case RemoveIt(_) => answer != Some(OrderClosed)
      case SetItemPaid(_, _, _) => answer != Some(OrderClosed)
      case _ => answer == Some(OrderClosed)
  {
    hide Exec;
  }

  lemma FaultsOfTheTables(e: DbError)
    ensures FaultOf(e) !in {NotAuthenticated, NotOwner, NotOrderCreator, NotItemOwner, NotJobHolder, OrderClosed,
                            JobTaken, DeadlineAfterFulfil, DeadlineInThePast, QuantityTooSmall, MissingField}
  {}

  lemma RefusalIsDecided(db: Db, now: Time, who: Option<Principal>, req: Request, fault: Fault)
    requires fault in {NotAuthenticated, NotOwner, NotOrderCreator, NotItemOwner, NotJobHolder, OrderClosed,
                       JobTaken, DeadlineAfterFulfil, DeadlineInThePast, QuantityTooSmall, MissingField}
    ensures Answer(db, now, who, req) == Some(fault) <==> Decide(db, now, who, req) == Err(fault)
  {
    hide Decide, Exec, FaultOf;
    forall e ensures FaultOf(e) != fault { FaultsOfTheTables(e); }
  }

  /** Who is told, signed in, that it is not theirs: exactly those it is not, once what they ask for is there. */
  lemma NotTheirs(db: Db, now: Time, who: Principal, req: Request)
    ensures Answer(db, now, Some(who), req) == Some(NotOrderCreator) <==>
      && (req.PatchIt? || req.RemoveIt?) && req.order in db.orders
      && who.id != db.orders[req.order].creator && !who.admin
    ensures Answer(db, now, Some(who), req) == Some(NotItemOwner) <==>
      && (req.PatchItem? || req.DeleteItem? || req.SetItemPaid?)
      && req.order in db.orders && req.item in db.items && db.items[req.item].order == req.order
      && who.id != db.items[req.item].user && !who.admin
      && (if req.SetItemPaid?
          then who.id != db.orders[req.order].creator && db.orders[req.order].collector != Some(who.id)
          else now < db.orders[req.order].deadlineAt)
    ensures Answer(db, now, Some(who), req) == Some(NotJobHolder) <==>
      && req.ReleaseJob? && req.order in db.orders
      && who.id != db.orders[req.order].creator && !who.admin
      && (if req.job.FetchingTheFood? then db.orders[req.order].pickup else db.orders[req.order].collector) != Some(who.id)
    ensures Answer(db, now, Some(who), req) == Some(NotOwner) <==>
      req.DeleteUser? && req.user in db.users && who.id != req.user && !who.admin
  {
    RefusalIsDecided(db, now, Some(who), req, NotOrderCreator);
    RefusalIsDecided(db, now, Some(who), req, NotItemOwner);
    RefusalIsDecided(db, now, Some(who), req, NotJobHolder);
    RefusalIsDecided(db, now, Some(who), req, NotOwner);
    hide Answer, Exec, HasItems;
  }

  // ----- orders -----

  lemma CreateDecides(db: Db, now: Time, who: Option<Principal>, req: Request)
    requires req.CreateIt?
    ensures Decide(db, now, who, req).Ok? <==>
      && who.Some? && now < req.deadlineAt < req.fulfilmentAt
      && NamesAPerson(db, req.collector) && NamesAPerson(db, req.pickup)
    ensures Decide(db, now, who, req).Ok? ==>
      (Decide(db, now, who, req).value
       == CreateOrder(req.minted, who.value.id, req.at, req.fulfilment, req.fulfilmentAt, req.deadlineAt,
                      req.collector, req.pickup))
  {}

  lemma CreateExecutes(db: Db, stmt: Stmt)
    requires stmt.CreateOrder? && stmt.deadlineAt < stmt.fulfilmentAt
    requires NamesAPerson(db, stmt.collector) && NamesAPerson(db, stmt.pickup)
    ensures Exec(db, stmt).Ok? <==> Living(db, stmt.at) && stmt.id !in db.orders && stmt.creator in db.users
  {
    hide ChangeOrder, RemoveOrders, RemoveItems, NewItem, ChangeItem, RemapAndDelete, Draw, Swept, HardDelete;
  }

  /**
   * An order is opened by anybody with an account at a living restaurant, if its deadline is ahead and
   * before its fulfilment and those it names are people. It is empty, undrawn, open, and has the
   * restaurant's terms of that moment; no other order changes.
   */
  lemma CreateAnswer(db: Db, now: Time, who: Option<Principal>, req: Request)
    requires req.CreateIt? && Integrity(db)
    ensures Answer(db, now, who, req).None? <==>
      && who.Some? && who.value.id in db.users && now < req.deadlineAt < req.fulfilmentAt
      && (req.collector.Some? ==> req.collector.value != PLACEHOLDER && req.collector.value in db.users)
      && (req.pickup.Some? ==> req.pickup.value != PLACEHOLDER && req.pickup.value in db.users)
      && req.at in db.restaurants && !db.restaurants[req.at].deleted && req.minted !in db.orders
    ensures Answer(db, now, who, req).None? ==>
      && var db' := Handle(db, now, who, req);
      && req.minted in db'.orders
      && db'.orders[req.minted] == Order(who.value.id, req.at, req.fulfilment, req.fulfilmentAt, req.deadlineAt,
                                         req.collector, req.pickup, db.restaurants[req.at].terms, false, false, false)
      && (forall i | i in db'.items :: db'.items[i].order != req.minted) && OrderTotal(db', req.minted) == 0
      && forall o | o in db.orders :: o in db'.orders && db'.orders[o] == db.orders[o] && OrderTotal(db', o) == OrderTotal(db, o)
  {
    RefusalChangesNothing(db, now, who, req);
    CreateDecides(db, now, who, req);
    hide Decide, Handle, Integrity, OrderTotal;
    if Decide(db, now, who, req).Ok? {
      var stmt := Decide(db, now, who, req).value;
      CreateExecutes(db, stmt);
      if Exec(db, stmt).Ok? {
        NewOrderIsEmpty(db, stmt);
        NewOrderRow(db, stmt);
      }
    }
    hide Exec;
  }

  /** The faults of opening an order, in the order they are looked for. */
  lemma CreateFaults(db: Db, now: Time, who: Principal, req: Request)
    requires req.CreateIt?
    ensures var answer := Answer(db, now, Some(who), req);
      if req.deadlineAt >= req.fulfilmentAt then answer == Some(DeadlineAfterFulfil)
      else if req.deadlineAt <= now then answer == Some(DeadlineInThePast)
      else
        (answer == Some(InvalidField) <==>
          || (req.collector.Some? && (req.collector.value == PLACEHOLDER || req.collector.value !in db.users))
          || (req.pickup.Some? && (req.pickup.value == PLACEHOLDER || req.pickup.value !in db.users))
          || req.at !in db.restaurants || db.restaurants[req.at].deleted)
  {
    hide ChangeOrder, RemoveOrders, RemoveItems, NewItem, ChangeItem, RemapAndDelete, Draw, Swept, HardDelete;
  }

  /** What a patch must find: its restaurant free to change and living, its times in order, its people known. */
  predicate Patchable(db: Db, order: Id, body: OrderUpdate)
    requires order in db.orders
  {
    && (body.restaurant.Some? ==>
          && (forall i | i in db.items :: db.items[i].order != order)
          && body.restaurant.value in db.restaurants && !db.restaurants[body.restaurant.value].deleted)
    && Or(body.deadlineAt, db.orders[order].deadlineAt) < Or(body.fulfilmentAt, db.orders[order].fulfilmentAt)
    && (body.collector.Some? && body.collector.value.Some? ==>
          body.collector.value.value != PLACEHOLDER && body.collector.value.value in db.users)
    && (body.pickup.Some? && body.pickup.value.Some? ==>
          body.pickup.value.value != PLACEHOLDER && body.pickup.value.value in db.users)
  }

  lemma PatchDecides(db: Db, now: Time, who: Option<Principal>, order: Id, body: OrderUpdate)
    ensures var d := Decide(db, now, who, PatchIt(order, body));
      && (d.Ok? <==> order in db.orders && MayAct(who, db.orders[order].creator) && Active(db.orders[order], now)
                     && Patchable(db, order, body))
      && (d.Ok? ==> d.value == UpdateOrder(order, body))
      && (d == Err(LockedRestaurant)
          <==> order in db.orders && MayAct(who, db.orders[order].creator) && Active(db.orders[order], now)
               && body.restaurant.Some? && HasItems(db, order))
  {}

  lemma PatchExecutes(db: Db, order: Id, body: OrderUpdate)
    requires Integrity(db) && order in db.orders && Patchable(db, order, body)
    ensures RefersTo(body.restaurant, db.restaurants)
    ensures var row := Patched(db.orders[order], body, db.restaurants);
            Exec(db, UpdateOrder(order, body)) == Ok(db.(orders := db.orders[order := row]))
  {
    var row := Patched(db.orders[order], body, db.restaurants);
    NothingSentNothingPatched(db, order);
    hide Integrity, HasItems;
    if body == NO_UPDATE {
      assert db.orders[order := db.orders[order]] == db.orders;
    } else {
      assert ChangeOrder(db, order, body) == Ok(db.(orders := db.orders[order := row]));
    }
    hide ChangeOrder;
  }

  lemma NothingSentNothingPatched(db: Db, order: Id)
    requires order in db.orders
    ensures Patched(db.orders[order], NO_UPDATE, db.restaurants) == db.orders[order]
  {}

  /** Field by field: what was sent, and otherwise what was there; terms come with the restaurant. */
  predicate PatchedAsSent(db: Db, was: Order, row: Order, body: OrderUpdate) {
    && row.creator == was.creator
    && row.restaurant == Or(body.restaurant, was.restaurant)
    && (body.restaurant.Some? ==> row.restaurant in db.restaurants && row.terms == db.restaurants[row.restaurant].terms)
    && (body.restaurant.None? ==> row.terms == was.terms)
    && row.fulfilment == Or(body.fulfilment, was.fulfilment)
    && row.fulfilmentAt == Or(body.fulfilmentAt, was.fulfilmentAt)
    && row.deadlineAt == Or(body.deadlineAt, was.deadlineAt)
    && row.collector == Or(body.collector, was.collector) && row.pickup == Or(body.pickup, was.pickup)
    && row.jobsDrawn == was.jobsDrawn && row.collectorDrawn == was.collectorDrawn && row.pickupDrawn == was.pickupDrawn
  }

  lemma PatchedIsAsSent(db: Db, o: Order, body: OrderUpdate)
    requires RefersTo(body.restaurant, db.restaurants)
    ensures PatchedAsSent(db, o, Patched(o, body, db.restaurants), body)
  {}

  /**
   * An order is patched by whoever opened it or the administrator while it is open, if what is sent
   * fits what is there; a restaurant change of an order that holds something is the fault told before
   * any other of the body. The row then has what was sent and no other row is touched.
   */
  lemma PatchAnswer(db: Db, now: Time, who: Option<Principal>, order: Id, body: OrderUpdate)
    requires Integrity(db)
    ensures var answer := Answer(db, now, who, PatchIt(order, body));
            var allowed := && who.Some? && order in db.orders && (who.value.id == db.orders[order].creator || who.value.admin)
                           && now < db.orders[order].deadlineAt;
      && (answer.None? <==> allowed && Patchable(db, order, body))
      && (answer == Some(LockedRestaurant)
          <==> allowed && body.restaurant.Some? && exists i :: i in db.items && db.items[i].order == order)
    ensures Answer(db, now, who, PatchIt(order, body)).None? ==>
      && var db' := Handle(db, now, who, PatchIt(order, body));
      && order in db'.orders && PatchedAsSent(db, db.orders[order], db'.orders[order], body)
      && db' == db.(orders := db.orders[order := db'.orders[order]])
  {
    RefusalChangesNothing(db, now, who, PatchIt(order, body));
    PatchDecides(db, now, who, order, body);
    if Decide(db, now, who, PatchIt(order, body)).Ok? {
      PatchExecutes(db, order, body);
      PatchedIsAsSent(db, db.orders[order], body);
    }
    hide Decide, Handle, Exec, Integrity, Patchable, PatchedAsSent;
  }

  /** The faults of patching an open order one may patch, in the order they are looked for. */
  lemma PatchFaults(db: Db, now: Time, who: Principal, order: Id, body: OrderUpdate)
    requires Integrity(db) && order in db.orders && now < db.orders[order].deadlineAt
    requires who.id == db.orders[order].creator || who.admin
    ensures var answer := Answer(db, now, Some(who), PatchIt(order, body));
      if body.restaurant.Some? && exists i :: i in db.items && db.items[i].order == order
      then answer == Some(LockedRestaurant)
      else if body.restaurant.Some? && (body.restaurant.value !in db.restaurants || db.restaurants[body.restaurant.value].deleted)
      then answer == Some(InvalidField)
      else if Or(body.deadlineAt, db.orders[order].deadlineAt) >= Or(body.fulfilmentAt, db.orders[order].fulfilmentAt)
      then answer == Some(DeadlineAfterFulfil)
      else answer == if Patchable(db, order, body) then None else Some(InvalidField)
  {
    if Patchable(db, order, body) { PatchExecutes(db, order, body); }
    hide Exec, Integrity;
  }

  /**
   * A patch decided on some tables and executed on others says what is wrong with those: the order is
   * gone, it holds something by now, or somebody it names is gone.
   */
  lemma LateRefusalsAreTold(db: Db, now: Time, who: Option<Principal>, order: Id, body: OrderUpdate, db': Db)
    requires Decide(db, now, who, PatchIt(order, body)).Ok?
    ensures var r := Exec(db', Decide(db, now, who, PatchIt(order, body)).value);
      if order !in db'.orders then r.Err? && FaultOf(r.error) == NotFoundHere
      else if body.restaurant.Some? && exists i :: i in db'.items && db'.items[i].order == order
      then r.Err? && FaultOf(r.error) == LockedRestaurant
      else
        (&& (body.restaurant.Some? ==> body.restaurant.value in db'.restaurants)
         && Or(body.deadlineAt, db'.orders[order].deadlineAt) < Or(body.fulfilmentAt, db'.orders[order].fulfilmentAt)
         && (|| (body.collector.Some? && body.collector.value.Some? && body.collector.value.value !in db'.users)
             || (body.pickup.Some? && body.pickup.value.Some? && body.pickup.value.value !in db'.users))
         ==> r.Err? && FaultOf(r.error) == InvalidField)
  {
    PatchDecides(db, now, who, order, body);
    ChangeRefuses(db', order, body);
    hide Decide;
  }

  lemma ChangeRefuses(db: Db, order: Id, body: OrderUpdate)
    ensures Exec(db, UpdateOrder(order, body)) == ChangeOrder(db, order, body)
    ensures order !in db.orders ==> ChangeOrder(db, order, body) == Err(NotFound)
    ensures order in db.orders && body.restaurant.Some? && HasItems(db, order) ==> ChangeOrder(db, order, body) == Err(RestaurantLocked)
  {
    hide RemoveOrders, RemoveItems, NewItem, ChangeItem, RemapAndDelete, Draw, Swept, HardDelete;
  }

  /**
   * An order is removed by whoever opened it or the administrator, closed or not, and takes its items
   * and snapshots along; no other order changes or costs anything else.
   */
  lemma RemoveAnswer(db: Db, now: Time, who: Option<Principal>, order: Id)
    requires Consistent(db)
    ensures Answer(db, now, who, RemoveIt(order)).None? <==>
      who.Some? && order in db.orders && (who.value.id == db.orders[order].creator || who.value.admin)
    ensures Answer(db, now, who, RemoveIt(order)).None? ==>
      && var db' := Handle(db, now, who, RemoveIt(order));
      && order !in db'.orders && (forall i | i in db'.items :: db'.items[i].order != order)
      && db' == db.(orders := db.orders - {order}, items := db'.items, snaps := db'.snaps)
      && forall o | o in db.orders && o != order :: SameContents(db, db', o) && OrderTotal(db', o) == OrderTotal(db, o)
  {
    RefusalChangesNothing(db, now, who, RemoveIt(order));
    RemoveDecides(db, now, who, order);
    if order in db.orders { DeletedOrderIsGone(db, order); }
    hide Decide, Handle, Exec, Consistent, SameContents, OrderTotal;
  }

  lemma RemoveDecides(db: Db, now: Time, who: Option<Principal>, order: Id)
    ensures var d := Decide(db, now, who, RemoveIt(order));
      && (d.Ok? <==> order in db.orders && MayAct(who, db.orders[order].creator))
      && (d.Ok? ==> d.value == DeleteOrder(order))
  {}

  // ----- items -----

  /** Living modifications of the dish, none chosen twice. */
  predicate Choosable(db: Db, dish: Id, chosen: seq<Id>) {
    && (forall m | m in chosen :: m in db.mods && db.mods[m].dish == dish && !db.mods[m].deleted)
    && (forall j, k | 0 <= j < k < |chosen| :: chosen[j] != chosen[k])
  }

  predicate LivingModOf(db: Db, dish: Id, m: Id) {
    m in db.mods && db.mods[m].dish == dish && !db.mods[m].deleted
  }

  lemma SelectableCons(db: Db, dish: Id, first: Id, rest: seq<Id>)
    ensures var all, others := Selectable(db, dish, [first] + rest), Selectable(db, dish, rest);
            |all| == |others| + if LivingModOf(db, dish, first) && first !in rest then 1 else 0
  {
    var all, others := Selectable(db, dish, [first] + rest), Selectable(db, dish, rest);
    if LivingModOf(db, dish, first) && first !in rest {
      assert all == others + {first} && first !in others;
    } else {
      assert all == others;
    }
  }

  lemma ChoosableCons(db: Db, dish: Id, first: Id, rest: seq<Id>)
    ensures Choosable(db, dish, [first] + rest)
            <==> LivingModOf(db, dish, first) && first !in rest && Choosable(db, dish, rest)
  {
    var chosen := [first] + rest;
    assert forall k | 0 <= k < |rest| :: rest[k] == chosen[k + 1];
    if Choosable(db, dish, chosen) {
      assert first in chosen;
      forall k | 0 <= k < |rest| ensures rest[k] in chosen && rest[k] != first { assert chosen[0] != chosen[k + 1]; }
    }
    if LivingModOf(db, dish, first) && first !in rest && Choosable(db, dish, rest) {
      forall j, k | 0 <= j < k < |chosen| ensures chosen[j] != chosen[k] {
        if j == 0 { assert chosen[k] == rest[k - 1]; } else { assert chosen[j] == rest[j - 1] && chosen[k] == rest[k - 1]; }
      }
    }
  }

  lemma {:induction false} ChoosableIff(db: Db, dish: Id, chosen: seq<Id>)
    ensures |Selectable(db, dish, chosen)| == |chosen| <==> Choosable(db, dish, chosen)
  {
    if chosen == [] {
      assert Selectable(db, dish, chosen) == {};
    } else {
      assert chosen == [chosen[0]] + chosen[1..];
      SelectableCons(db, dish, chosen[0], chosen[1..]);
      ChoosableCons(db, dish, chosen[0], chosen[1..]);
      hide Selectable, Choosable, LivingModOf;
      ChoosableIff(db, dish, chosen[1..]);
      SelectableAtMost(db, dish, chosen[1..]);
    }
  }

  /** New ids, one for each modification chosen. */
  predicate OneIdEach(db: Db, minted: map<Id, Id>, chosen: seq<Id>) {
    && |minted| == |chosen|
    && (forall s | s in minted :: s !in db.snaps && minted[s] in chosen)
    && (forall s, t | s in minted && t in minted && minted[s] == minted[t] :: s == t)
  }

  lemma OneIdEachIsMinted(db: Db, db1: Db, dish: Id, minted: map<Id, Id>, chosen: seq<Id>)
    requires OneIdEach(db1, minted, chosen) && Choosable(db, dish, chosen)
    ensures MintedFor(db1, minted, Selectable(db, dish, chosen))
  {
    ChoosableIff(db, dish, chosen);
  }

  /** The ids minted for this item and its snapshots are new, one for each modification. */
  predicate FreshFor(db: Db, req: Request)
    requires req.AddItem?
  {
    req.minted !in db.items && (Choosable(db, req.dish, req.chosen) ==> OneIdEach(db, req.mintedSnaps, req.chosen))
  }

  lemma AddDecides(db: Db, now: Time, who: Option<Principal>, req: Request)
    requires req.AddItem?
    ensures var d := Decide(db, now, who, req);
      && (d.Ok? <==> req.order in db.orders && who.Some? && Active(db.orders[req.order], now)
                     && 1 <= req.quantity <= MAX_ORDER_ITEM_QUANTITY)
      && (d.Ok? ==> d.value == AddOrderItem(req.minted, req.order, who.value.id, req.dish, req.quantity, req.note,
                                            req.chosen, req.served, req.mintedSnaps))
  {}

  lemma AddExecutes(db: Db, stmt: Stmt)
    requires stmt.AddOrderItem? && stmt.quantity >= 1 && stmt.id !in db.items
    requires Choosable(db, stmt.dish, stmt.chosen) ==> OneIdEach(db, stmt.minted, stmt.chosen)
    ensures Exec(db, stmt).Ok? <==>
      && Orderable(db, stmt.order, stmt.dish) && db.dishes[stmt.dish].available && stmt.served
      && stmt.user in db.users && Choosable(db, stmt.dish, stmt.chosen)
  {
    if Orderable(db, stmt.order, stmt.dish) {
      var dish := db.dishes[stmt.dish];
      var inserted := InsertItem(db, stmt.id, stmt.order, stmt.user, stmt.dish, stmt.quantity, stmt.note, dish.name, dish.price);
      if inserted.Ok? { SnapshottingOkIff(db, inserted.value, stmt.id, stmt.dish, stmt.chosen, stmt.minted); }
    }
    hide Choosable, Snapshotting, ChangeOrder, ChangeItem, RemapAndDelete, Draw, Swept, HardDelete;
  }

  lemma SnapshottingOkIff(db: Db, db1: Db, item: Id, dish: Id, chosen: seq<Id>, minted: map<Id, Id>)
    requires db1.mods == db.mods && db1.snaps == db.snaps
    requires Choosable(db, dish, chosen) ==> OneIdEach(db, minted, chosen)
    ensures Snapshotting(db1, item, dish, chosen, minted).Ok? <==> Choosable(db, dish, chosen)
  {
    ChoosableIff(db, dish, chosen);
    if Choosable(db, dish, chosen) { OneIdEachIsMinted(db, db, dish, minted, chosen); }
    assert Selectable(db1, dish, chosen) == Selectable(db, dish, chosen);
  }

  /**
   * Anybody with an account adds to an open order, one to 99 of a living, available dish of its
   * restaurant that is served then, with living modifications of that dish, none twice. The item is
   * theirs, unpaid, at the menu's name and price of that moment with the menu's modifications; its
   * order costs its line more, no other order anything.
   */
  lemma AddItemAnswer(db: Db, now: Time, who: Option<Principal>, req: Request, any: Id)
    requires req.AddItem? && Integrity(db) && FreshFor(db, req)
    ensures Answer(db, now, who, req).None? <==>
      && who.Some? && who.value.id in db.users
      && req.order in db.orders && now < db.orders[req.order].deadlineAt && 1 <= req.quantity <= 99
      && req.dish in db.dishes && !db.dishes[req.dish].deleted
      && db.dishes[req.dish].restaurant == db.orders[req.order].restaurant
      && db.dishes[req.dish].available && req.served
      && Choosable(db, req.dish, req.chosen)
    ensures Answer(db, now, who, req).None? ==>
      && var db' := Handle(db, now, who, req);
      && var row := OrderItem(req.order, who.value.id, req.dish, req.quantity,
                              db.dishes[req.dish].name, db.dishes[req.dish].price, req.note, false);
      && ItemCame(db, db', req.minted, row)
      && (forall s | s in db'.snaps && s !in db.snaps :: TakenFrom(db, db'.snaps[s], req.dish, req.chosen))
      && req.minted in db'.items
      && OrderTotal(db', any) == OrderTotal(db, any) + if any == req.order then LineTotal(db', req.minted) else 0
  {
    RefusalChangesNothing(db, now, who, req);
    AddDecides(db, now, who, req);
    hide Decide, Handle, Integrity, OrderTotal, LineTotal, Choosable;
    if Decide(db, now, who, req).Ok? {
      var stmt := Decide(db, now, who, req).value;
      AddExecutes(db, stmt);
      if Exec(db, stmt).Ok? {
        ItemAdded(db, stmt);
        var db' := Exec(db, stmt).value;
        ItemCosts(db, db', req.minted, db'.items[req.minted], any);
      }
    }
    hide Exec, TakenFrom;
  }

  /** The faults of adding to an open order: the quantity, the dish, the hour, the selection, in this order. */
  lemma AddItemFaults(db: Db, now: Time, who: Principal, req: Request)
    requires req.AddItem? && FreshFor(db, req) && who.id in db.users
    requires req.order in db.orders && now < db.orders[req.order].deadlineAt
    ensures var answer := Answer(db, now, Some(who), req);
      if req.quantity < 1 then answer == Some(QuantityTooSmall)
      else if req.quantity > 99 then answer == Some(InvalidField)
      else if req.dish !in db.dishes || db.dishes[req.dish].deleted
              || db.dishes[req.dish].restaurant != db.orders[req.order].restaurant
      then answer == Some(ItemWrongRestaurant)
      else if !db.dishes[req.dish].available then answer == Some(SoldOut)
      else if !req.served then answer == Some(NotServedThen)
      else if !Choosable(db, req.dish, req.chosen) then answer == Some(WrongModification)
      else answer == None
  {
    if req.quantity >= 1 {
      AddFails(db, AddOrderItem(req.minted, req.order, who.id, req.dish, req.quantity, req.note, req.chosen, req.served, req.mintedSnaps));
    }
    hide Choosable, Exec;
  }

  lemma AddFails(db: Db, stmt: Stmt)
    requires stmt.AddOrderItem? && stmt.quantity >= 1 && stmt.id !in db.items && stmt.user in db.users
    requires Choosable(db, stmt.dish, stmt.chosen) ==> OneIdEach(db, stmt.minted, stmt.chosen)
    ensures !Orderable(db, stmt.order, stmt.dish) ==> Exec(db, stmt) == Err(WrongRestaurant)
    ensures Orderable(db, stmt.order, stmt.dish) ==>
      && (!db.dishes[stmt.dish].available ==> Exec(db, stmt) == Err(ItemUnavailable))
      && (db.dishes[stmt.dish].available && !stmt.served ==> Exec(db, stmt) == Err(ItemNotServedThen))
      && (db.dishes[stmt.dish].available && stmt.served ==>
            && (Choosable(db, stmt.dish, stmt.chosen) ==> Exec(db, stmt).Ok?)
            && (!Choosable(db, stmt.dish, stmt.chosen) ==> Exec(db, stmt) == Err(ModificationWrongItem)))
  {
    if Orderable(db, stmt.order, stmt.dish) {
      var dish := db.dishes[stmt.dish];
      var inserted := InsertItem(db, stmt.id, stmt.order, stmt.user, stmt.dish, stmt.quantity, stmt.note, dish.name, dish.price);
      SnapshottingFails(db, inserted.value, stmt.id, stmt.dish, stmt.chosen, stmt.minted);
    }
    hide Choosable, OneIdEach, Snapshotting, ChangeOrder, ChangeItem, RemapAndDelete, Draw, Swept, HardDelete;
  }

  lemma SnapshottingFails(db: Db, db1: Db, item: Id, dish: Id, chosen: seq<Id>, minted: map<Id, Id>)
    requires db1.mods == db.mods && db1.snaps == db.snaps
    requires Choosable(db, dish, chosen) ==> OneIdEach(db, minted, chosen)
    ensures Choosable(db, dish, chosen) ==> Snapshotting(db1, item, dish, chosen, minted).Ok?
    ensures !Choosable(db, dish, chosen) ==> Snapshotting(db1, item, dish, chosen, minted) == Err(ModificationWrongItem)
  {
    SnapshottingOkIff(db, db1, item, dish, chosen, minted);
    ChoosableIff(db, dish, chosen);
    SameMods(db, db1, dish, chosen);
    assert chosen == [] ==> Selectable(db, dish, chosen) == {};
    hide Choosable, Selectable, MintedFor;
  }

  /** The ids minted for a new selection are new, once the old one is gone. */
  predicate RemintedFor(db: Db, item: Id, chosen: Option<seq<Id>>, minted: map<Id, Id>) {
    item in db.items && chosen.Some? && Choosable(db, db.items[item].dish, chosen.value) ==>
      OneIdEach(db.(snaps := db.snaps - SnapsOf(db, {item})), minted, chosen.value)
  }

  /** The selection is kept, or replaced by what the menu has of the one sent; nobody else's changes. */
  ghost predicate Reselected(db: Db, db': Db, item: Id, chosen: Option<seq<Id>>)
    requires item in db.items
  {
    && (chosen.None? ==> db'.snaps == db.snaps)
    && (forall s | s in db.snaps && db.snaps[s].item != item :: s in db'.snaps && db'.snaps[s] == db.snaps[s])
    && (forall s | s in db'.snaps && s !in db.snaps :: db'.snaps[s].item == item)
    && (chosen.Some? ==>
          forall s | s in db'.snaps && db'.snaps[s].item == item ::
            TakenFrom(db, db'.snaps[s], db.items[item].dish, chosen.value))
  }

  lemma Reselecting(db: Db, db1: Db, item: Id, chosen: seq<Id>, minted: map<Id, Id>)
    requires item in db.items && RemintedFor(db, item, Some(chosen), minted)
    requires db1.mods == db.mods && db1.snaps == db.snaps - SnapsOf(db, {item})
    ensures var r := Snapshotting(db1, item, db.items[item].dish, chosen, minted);
      && (r.Ok? <==> Choosable(db, db.items[item].dish, chosen))
      && (r.Ok? ==> r.value == db1.(snaps := r.value.snaps) && Reselected(db, r.value, item, Some(chosen)))
  {
    var dish := db.items[item].dish;
    SameMods(db, db1, dish, chosen);
    SnapshottingOkIff(db1, db1, item, dish, chosen, minted) by { hide Snapshotting, SnapsOf; }
    if Snapshotting(db1, item, dish, chosen, minted).Ok? {
      SnapshotsCame(db1, item, dish, chosen, minted);
      ReselectedAs(db, db1, Snapshotting(db1, item, dish, chosen, minted).value, item, chosen);
    }
    hide Snapshotting, Selectable, MintedFor, SnapsOf, Reselected;
  }

  lemma SameMods(db: Db, db1: Db, dish: Id, chosen: seq<Id>)
    requires db1.mods == db.mods
    ensures Selectable(db1, dish, chosen) == Selectable(db, dish, chosen)
    ensures Choosable(db1, dish, chosen) == Choosable(db, dish, chosen)
  {}

  lemma ReselectedAs(db: Db, db1: Db, db': Db, item: Id, chosen: seq<Id>)
    requires item in db.items && db1.mods == db.mods && db1.snaps == db.snaps - SnapsOf(db, {item})
    requires forall s | s in db1.snaps :: s in db'.snaps && db'.snaps[s] == db1.snaps[s]
    requires forall s | s in db'.snaps && s !in db1.snaps ::
      db'.snaps[s].item == item && TakenFrom(db1, db'.snaps[s], db.items[item].dish, chosen)
    ensures Reselected(db, db', item, Some(chosen))
  {}

  lemma ChangeExecutes(db: Db, id: Id, quantity: Option<int>, note: Option<string>, chosen: Option<seq<Id>>, minted: map<Id, Id>)
    requires id in db.items && (quantity.Some? ==> quantity.value >= 1) && RemintedFor(db, id, chosen, minted)
    ensures var r := ChangeItem(db, id, quantity, note, chosen, minted);
      && (r.Ok? <==> chosen.Some? ==> Choosable(db, db.items[id].dish, chosen.value))
      && (r.Ok? ==>
            && r.value == db.(items := db.items[id := ItemAsSent(db.items[id], quantity, note)], snaps := r.value.snaps)
            && Reselected(db, r.value, id, chosen))
  {
    var db1 := db.(items := db.items[id := ItemAsSent(db.items[id], quantity, note)]);
    if chosen.Some? {
      assert SnapsOf(db1, {id}) == SnapsOf(db, {id});
      Reselecting(db, db1.(snaps := db1.snaps - SnapsOf(db1, {id})), id, chosen.value, minted);
    }
    hide Snapshotting, Choosable, RemintedFor;
  }

  function ItemAsSent(was: OrderItem, quantity: Option<int>, note: Option<string>): OrderItem {
    was.(quantity := Or(quantity, was.quantity), note := Or(note, was.note))
  }

  lemma PatchItemDecides(db: Db, now: Time, who: Option<Principal>, req: Request)
    requires req.PatchItem?
    ensures var d := Decide(db, now, who, req);
      && (d.Ok? <==> ItemInOrder(db, req.order, req.item) && MayAct(who, db.items[req.item].user)
                     && Active(db.orders[req.order], now)
                     && (req.newQuantity.Some? ==> 1 <= req.newQuantity.value <= MAX_ORDER_ITEM_QUANTITY))
      && (d.Ok? ==> d.value == UpdateOrderItem(req.item, req.newQuantity, req.newNote, req.newChosen, req.mintedSnaps))
  {}

  /**
   * An item is changed by whose it is or the administrator while its order is open. Quantity, note and
   * selection are as sent or as they were; whose it is, its dish, name, price and tick stay, and so does
   * everything of every other item.
   */
  lemma PatchItemAnswer(db: Db, now: Time, who: Option<Principal>, req: Request)
    requires req.PatchItem? && RemintedFor(db, req.item, req.newChosen, req.mintedSnaps)
    ensures Answer(db, now, who, req).None? <==>
      && who.Some? && req.order in db.orders && req.item in db.items && db.items[req.item].order == req.order
      && (who.value.id == db.items[req.item].user || who.value.admin) && now < db.orders[req.order].deadlineAt
      && (req.newQuantity.Some? ==> 1 <= req.newQuantity.value <= 99)
      && (req.newChosen.Some? ==> Choosable(db, db.items[req.item].dish, req.newChosen.value))
    ensures Answer(db, now, who, req).None? ==>
      && var db' := Handle(db, now, who, req);
      && req.item in db.items && Reselected(db, db', req.item, req.newChosen)
      && db' == db.(items := db.items[req.item := ItemAsSent(db.items[req.item], req.newQuantity, req.newNote)],
                    snaps := db'.snaps)
  {
    RefusalChangesNothing(db, now, who, req);
    PatchItemDecides(db, now, who, req);
    if Decide(db, now, who, req).Ok? {
      ChangeExecutes(db, req.item, req.newQuantity, req.newNote, req.newChosen, req.mintedSnaps);
    }
    hide Decide, Handle, Answer, ChangeItem, Choosable, Reselected;
  }

  /** The faults of changing an item one may change: the quantity before the selection. */
  lemma PatchItemFaults(db: Db, now: Time, who: Principal, req: Request)
    requires req.PatchItem? && RemintedFor(db, req.item, req.newChosen, req.mintedSnaps)
    requires req.order in db.orders && req.item in db.items && db.items[req.item].order == req.order
    requires now < db.orders[req.order].deadlineAt && (who.id == db.items[req.item].user || who.admin)
    ensures var answer := Answer(db, now, Some(who), req);
      if req.newQuantity.Some? && req.newQuantity.value < 1 then answer == Some(QuantityTooSmall)
      else if req.newQuantity.Some? && req.newQuantity.value > 99 then answer == Some(InvalidField)
      else if req.newChosen.Some? && !Choosable(db, db.items[req.item].dish, req.newChosen.value)
      then answer == Some(WrongModification)
      else answer == None
  {
    if req.newQuantity.Some? ==> req.newQuantity.value >= 1 {
      ChangeExecutes(db, req.item, req.newQuantity, req.newNote, req.newChosen, req.mintedSnaps);
      if req.newChosen.Some? && !Choosable(db, db.items[req.item].dish, req.newChosen.value) {
        ChangeFails(db, req.item, req.newQuantity, req.newNote, req.newChosen.value, req.mintedSnaps);
      }
    }
    hide Choosable, ChangeItem, RemintedFor, Reselected, ChangeOrder, NewItem, RemapAndDelete, Draw, Swept, HardDelete;
  }

  lemma ChangeFails(db: Db, id: Id, quantity: Option<int>, note: Option<string>, chosen: seq<Id>, minted: map<Id, Id>)
    requires id in db.items && (quantity.Some? ==> quantity.value >= 1) && RemintedFor(db, id, Some(chosen), minted)
    requires !Choosable(db, db.items[id].dish, chosen)
    ensures ChangeItem(db, id, quantity, note, Some(chosen), minted) == Err(ModificationWrongItem)
  {
    var dish := db.items[id].dish;
    var db1 := db.(items := db.items[id := ItemAsSent(db.items[id], quantity, note)]);
    var db2 := db1.(snaps := db1.snaps - SnapsOf(db1, {id}));
    SnapshottingFails(db2, db2, id, dish, chosen, minted);
    SameMods(db, db2, dish, chosen);
    hide Choosable, Snapshotting, RemintedFor;
  }

  lemma DeleteItemDecides(db: Db, now: Time, who: Option<Principal>, order: Id, item: Id)
    ensures var d := Decide(db, now, who, DeleteItem(order, item));
      && (d.Ok? <==> ItemInOrder(db, order, item) && MayAct(who, db.items[item].user) && Active(db.orders[order], now))
      && (d.Ok? ==> d.value == DeleteOrderItem(item))
  {}

  /**
   * An item is deleted by whose it is or the administrator while its order is open. Its order then
   * costs its line less, and no other order anything less or more.
   */
  lemma DeleteItemAnswer(db: Db, now: Time, who: Option<Principal>, order: Id, item: Id, any: Id)
    requires Integrity(db)
    ensures Answer(db, now, who, DeleteItem(order, item)).None? <==>
      && who.Some? && order in db.orders && item in db.items && db.items[item].order == order
      && (who.value.id == db.items[item].user || who.value.admin) && now < db.orders[order].deadlineAt
    ensures Answer(db, now, who, DeleteItem(order, item)).None? ==>
      && var db' := Handle(db, now, who, DeleteItem(order, item));
      && item in db.items && item !in db'.items && ItemCame(db', db, item, db.items[item])
      && OrderTotal(db', any) == OrderTotal(db, any) - if any == order then LineTotal(db, item) else 0
  {
    RefusalChangesNothing(db, now, who, DeleteItem(order, item));
    DeleteItemDecides(db, now, who, order, item);
    if item in db.items {
      DeletedItemCosts(db, item, any);
      ItemIsLeft(db, item);
    }
    hide Decide, Handle, Exec, Integrity, OrderTotal, LineTotal;
  }

  lemma SetPaidDecides(db: Db, now: Time, who: Option<Principal>, order: Id, item: Id, paid: Option<bool>)
    ensures var d := Decide(db, now, who, SetItemPaid(order, item, paid));
      && (d.Ok? <==> ItemInOrder(db, order, item) && who.Some? && MayTick(db, order, item, who.value) && paid.Some?)
      && (d.Ok? ==> d.value == SetOrderItemPaid(item, paid.value))
  {}

  /**
   * An item is ticked by whose it is, whoever opened the order or collects for it, or the administrator,
   * at any time; the tick is all that changes, and nothing costs anything else.
   */
  lemma SetPaidAnswer(db: Db, now: Time, who: Option<Principal>, order: Id, item: Id, paid: Option<bool>, any: Id)
    ensures Answer(db, now, who, SetItemPaid(order, item, paid)).None? <==>
      && who.Some? && order in db.orders && item in db.items && db.items[item].order == order && paid.Some?
      && (|| who.value.id == db.items[item].user || who.value.id == db.orders[order].creator
          || db.orders[order].collector == Some(who.value.id) || who.value.admin)
    ensures Answer(db, now, who, SetItemPaid(order, item, paid)).None? ==>
      && var db' := Handle(db, now, who, SetItemPaid(order, item, paid));
      && item in db.items && item in db'.items
      && db'.items[item].paid == paid.value
      && db' == db.(items := db.items[item := db.items[item].(paid := db'.items[item].paid)])
      && OrderTotal(db', any) == OrderTotal(db, any)
  {
    RefusalChangesNothing(db, now, who, SetItemPaid(order, item, paid));
    SetPaidDecides(db, now, who, order, item, paid);
    if item in db.items && paid.Some? { TickingIsUndone(db, item, paid.value, any); }
    hide Decide, Handle, Exec, OrderTotal;
  }

  // ----- jobs -----

  /** The job is this one's now, or nobody's; the other job and every other row are as they were. */
  predicate JobGiven(db: Db, db': Db, order: Id, job: Job, holder: Option<Id>) {
    && order in db.orders && order in db'.orders
    && db' == db.(orders := db.orders[order := db'.orders[order]])
    && (db'.orders[order] == if job.FetchingTheFood? then db.orders[order].(pickup := holder)
                             else db.orders[order].(collector := holder))
  }

  lemma AssignExecutes(db: Db, order: Id, job: Job, holder: Option<Id>)
    requires Integrity(db) && order in db.orders
    ensures var r := Exec(db, UpdateOrder(order, Assign(job, holder)));
      && (r.Ok? <==> RefersTo(holder, db.users))
      && (r.Ok? ==> JobGiven(db, r.value, order, job, holder))
  {
    var u := Assign(job, holder);
    var row := Patched(db.orders[order], u, db.restaurants);
    assert u.restaurant.None? && u != NO_UPDATE;
    assert row.deadlineAt < row.fulfilmentAt;
    hide Integrity;
    assert ChangeOrder(db, order, u)
        == if RefersTo(holder, db.users) then Ok(db.(orders := db.orders[order := row])) else Err(UnknownReference);
    hide ChangeOrder;
  }

  lemma ClaimDecides(db: Db, now: Time, who: Option<Principal>, order: Id, job: Job)
    ensures var d := Decide(db, now, who, ClaimJob(order, job));
      && (d.Ok? <==> order in db.orders && who.Some? && Active(db.orders[order], now) && Holder(db.orders[order], job).None?)
      && (d.Ok? ==> d.value == UpdateOrder(order, Assign(job, Some(who.value.id))))
  {}

  /** A vacant job of an open order goes to whoever with an account claims it, and only then. */
  lemma ClaimAnswer(db: Db, now: Time, who: Option<Principal>, order: Id, job: Job)
    requires Integrity(db)
    ensures Answer(db, now, who, ClaimJob(order, job)).None? <==>
      && order in db.orders && who.Some? && who.value.id in db.users && now < db.orders[order].deadlineAt
      && (if job.FetchingTheFood? then db.orders[order].pickup else db.orders[order].collector).None?
    ensures Answer(db, now, who, ClaimJob(order, job)).None? ==>
      who.Some? && JobGiven(db, Handle(db, now, who, ClaimJob(order, job)), order, job, Some(who.value.id))
  {
    RefusalChangesNothing(db, now, who, ClaimJob(order, job));
    ClaimDecides(db, now, who, order, job);
    if who.Some? && order in db.orders { AssignExecutes(db, order, job, Some(who.value.id)); }
    hide Decide, Handle, Exec, Integrity, JobGiven;
  }

  lemma ReleaseDecides(db: Db, now: Time, who: Option<Principal>, order: Id, job: Job)
    ensures var d := Decide(db, now, who, ReleaseJob(order, job));
      && (d.Ok? <==> order in db.orders && who.Some? && MayRelease(db.orders[order], job, who.value)
                     && Active(db.orders[order], now))
      && (d.Ok? ==> d.value == if Holder(db.orders[order], job).None? then Nothing else UpdateOrder(order, Assign(job, None)))
  {}

  /**
   * A job of an open order is given up by whoever has it, whoever opened the order or the administrator,
   * and is vacant then; giving up what nobody has is no fault and changes nothing.
   */
  lemma ReleaseAnswer(db: Db, now: Time, who: Option<Principal>, order: Id, job: Job)
    requires Integrity(db)
    ensures Answer(db, now, who, ReleaseJob(order, job)).None? <==>
      && order in db.orders && who.Some? && now < db.orders[order].deadlineAt
      && (|| (if job.FetchingTheFood? then db.orders[order].pickup else db.orders[order].collector) == Some(who.value.id)
          || who.value.id == db.orders[order].creator || who.value.admin)
    ensures Answer(db, now, who, ReleaseJob(order, job)).None? ==>
      && JobGiven(db, Handle(db, now, who, ReleaseJob(order, job)), order, job, None)
      && ((if job.FetchingTheFood? then db.orders[order].pickup else db.orders[order].collector).None? ==>
            Handle(db, now, who, ReleaseJob(order, job)) == db)
  {
    RefusalChangesNothing(db, now, who, ReleaseJob(order, job));
    ReleaseDecides(db, now, who, order, job);
    if order in db.orders {
      AssignExecutes(db, order, job, None);
      assert db.orders[order := db.orders[order]] == db.orders;
    }
    NothingExecutes(db);
    hide Decide, Handle, Exec, Integrity;
  }

  lemma NothingExecutes(db: Db)
    ensures Exec(db, Nothing) == Ok(db)
  {}

  /** Somebody has it already: the one fault a claim of an open order's job has. */
  lemma ClaimFault(db: Db, now: Time, who: Principal, order: Id, job: Job)
    ensures Answer(db, now, Some(who), ClaimJob(order, job)) == Some(JobTaken) <==>
      && order in db.orders && now < db.orders[order].deadlineAt
      && (if job.FetchingTheFood? then db.orders[order].pickup else db.orders[order].collector).Some?
  {
    RefusalIsDecided(db, now, Some(who), ClaimJob(order, job), JobTaken);
    hide Answer;
  }

  // ----- accounts -----

  lemma DeleteUserDecides(db: Db, now: Time, who: Option<Principal>, user: Id)
    ensures var d := Decide(db, now, who, DeleteUser(user));
      && (d.Ok? <==> && who.Some? && user in db.users && user != PLACEHOLDER && !db.users[user].admin
                     && (who.value.id == user || who.value.admin))
      && (d.Ok? ==> d.value == DeleteAccount(user, now))
  {}

  /**
   * An account goes by its own hand or the administrator's, and then no row names it and what did not
   * name it stands; the placeholder and an administrator's own stay, each with an answer of its own.
   */
  lemma DeleteUserAnswer(db: Db, now: Time, who: Option<Principal>, user: Id)
    requires Integrity(db)
    ensures Answer(db, now, who, DeleteUser(user)).None? <==>
      && who.Some? && user in db.users && user != PLACEHOLDER && !db.users[user].admin
      && (who.value.id == user || who.value.admin)
    ensures Answer(db, now, who, DeleteUser(user)).None? ==>
      && user !in Handle(db, now, who, DeleteUser(user)).users
      && Forgotten(db, Handle(db, now, who, DeleteUser(user)), user)
    ensures who.Some? && user in db.users && (who.value.id == user || who.value.admin) ==>
      && (user == PLACEHOLDER ==> Answer(db, now, who, DeleteUser(user)) == Some(PlaceholderReadOnly))
      && (user != PLACEHOLDER && db.users[user].admin ==> Answer(db, now, who, DeleteUser(user)) == Some(AdminRequired))
  {
    RefusalChangesNothing(db, now, who, DeleteUser(user));
    DeleteUserDecides(db, now, who, user);
    DeletionIs(db, user, now);
    if RemapAndDelete(db, user, now).Ok? { NothingRefersToTheDeleted(db, user, now); }
    hide Exec, RemapAndDelete, Integrity, Forgotten;
  }
}
