/** What soft deletion settles for good: nothing is ordered at a deleted restaurant or of a deleted dish again. */
module Burials {
  import opened Prelude
  import opened Schema
  import opened Sql
  import opened Sparing
  import opened Handlers
  import opened Runs
  import opened Interleaving
  import opened Effects

  // ----- dishes, statement by statement -----

  /** The dish has left the menu, if it is there at all. */
  predicate OffTheMenu(db: Db, dish: Id) {
    dish in db.dishes ==> db.dishes[dish].deleted
  }

  /** Its items are among those there were. */
  predicate NoNewItemsOf(db: Db, db': Db, dish: Id) {
    forall i | i in db'.items && db'.items[i].dish == dish :: i in db.items && db.items[i].dish == dish
  }

  predicate BuriedStill(db: Db, db': Db, dish: Id) {
    OffTheMenu(db', dish) && NoNewItemsOf(db, db', dish)
  }

  lemma SweptDishStays(db: Db, sweep: Sweep, now: Time, retention: Time, dish: Id)
    requires OffTheMenu(db, dish)
    ensures BuriedStill(db, Swept(db, sweep, now, retention), dish)
  {
    hide Doomed;
  }

  lemma HardDeletedDishStays(db: Db, restaurant: Id, dish: Id)
    requires OffTheMenu(db, dish) && HardDelete(db, restaurant).Ok?
    ensures BuriedStill(db, HardDelete(db, restaurant).value, dish)
  {}

  lemma DishWritesKeepBuried(db: Db, stmt: Stmt, dish: Id)
    requires (stmt.CreateMenuItem? && stmt.id != dish) || stmt.UpdateMenuItem? || stmt.SoftDeleteMenuItem?
    requires OffTheMenu(db, dish)
    ensures OffTheMenu(After(db, stmt), dish)
  {
    hide InsertOrder, ChangeOrder, RemoveOrders, RemoveItems, NewItem, ChangeItem, RemapAndDelete, Draw, Swept,
      HardDelete, Ticked, NewUser, NewImage, NewRestaurant, ChangeRestaurant, BuryRestaurant, NewCategory,
      BuryCategory, Unfiled, NewModification, ChangeModification, BuryModification, DishRefs;
  }

  lemma UnfilingKeepsBuried(db: Db, id: Id, dish: Id)
    requires OffTheMenu(db, dish)
    ensures OffTheMenu(Unfiled(db, id), dish)
    ensures BuryCategory(db, id).Ok? ==> OffTheMenu(BuryCategory(db, id).value, dish)
  {}

  lemma MenuKeepsBuried(db: Db, stmt: Stmt, dish: Id)
    requires WritesMenu(stmt) && !Remints(stmt, dish) && OffTheMenu(db, dish)
    ensures OffTheMenu(After(db, stmt), dish)
  {
    if stmt.SoftDeleteCategory? {
      UnfilingKeepsBuried(db, stmt.id, dish);
      hide BuryCategory, Unfiled, OffTheMenu;
    } else {
      hide After;
      if stmt.CreateModification? || stmt.UpdateModification? || stmt.SoftDeleteModification? {
        ModificationsLeaveDishes(db, stmt);
      } else if stmt.CreateMenuItem? || stmt.UpdateMenuItem? || stmt.SoftDeleteMenuItem? {
        DishWritesKeepBuried(db, stmt, dish);
      } else {
        RestaurantsLeaveDishes(db, stmt);
      }
    }
  }

  lemma AddingNeedsALivingDish(db: Db, stmt: Stmt, dish: Id)
    requires stmt.AddOrderItem? && OffTheMenu(db, dish) && Exec(db, stmt).Ok?
    ensures NoNewItemsOf(db, Exec(db, stmt).value, dish)
  {
    ItemAdded(db, stmt);
    hide Exec, TakenFrom;
  }

  lemma ChangingKeepsTheDish(db: Db, stmt: Stmt, dish: Id)
    requires stmt.UpdateOrderItem? && ChangeItem(db, stmt.id, stmt.newQuantity, stmt.newNote, stmt.newChosen, stmt.minted).Ok?
    ensures NoNewItemsOf(db, ChangeItem(db, stmt.id, stmt.newQuantity, stmt.newNote, stmt.newChosen, stmt.minted).value, dish)
  {
    hide Snapshotting, SnapsOf;
    var was := db.items[stmt.id];
    var row := was.(quantity := Or(stmt.newQuantity, was.quantity), note := Or(stmt.newNote, was.note));
    var db1 := db.(items := db.items[stmt.id := row]);
    if stmt.newChosen.Some? {
      var db2 := db1.(snaps := db1.snaps - SnapsOf(db1, {stmt.id}));
      SnapshottingTouches(db2, stmt.id, was.dish, stmt.newChosen.value, stmt.minted);
    }
  }

  lemma ItemsAddNothingBuried(db: Db, stmt: Stmt, dish: Id)
    requires stmt.AddOrderItem? || stmt.UpdateOrderItem? || stmt.DeleteOrderItem? || stmt.SetOrderItemPaid?
    requires OffTheMenu(db, dish) && Exec(db, stmt).Ok?
    ensures NoNewItemsOf(db, Exec(db, stmt).value, dish)
  {
    match stmt
    case AddOrderItem(_, _, _, _, _, _, _, _, _) =>
      AddingNeedsALivingDish(db, stmt, dish);
      hide Exec;
    case UpdateOrderItem(_, _, _, _, _) =>
      ChangingKeepsTheDish(db, stmt, dish);
      hide ChangeItem;
    case _ =>
      hide SnapsOf, NewItem, ChangeItem;
  }

  lemma OrderWritesAddNothing(db: Db, stmt: Stmt, dish: Id)
    requires stmt.CreateOrder? || stmt.UpdateOrder? || stmt.DeleteOrder? || stmt.DrawJobs? || stmt.Nothing?
    ensures NoNewItemsOf(db, After(db, stmt), dish)
  {
    hide NewItem, ChangeItem, RemapAndDelete, Swept, HardDelete, NewUser, NewImage, NewRestaurant,
      ChangeRestaurant, BuryRestaurant, NewCategory, BuryCategory, NewDish, ChangeDish, BuryDish, NewModification,
      ChangeModification, BuryModification, Unfiled, SnapsOf, Due, LegalPicks, DrawnOrder, Patched;
  }

  lemma DeletionAddsNothing(db: Db, user: Id, now: Time, dish: Id)
    requires RemapAndDelete(db, user, now).Ok?
    ensures NoNewItemsOf(db, RemapAndDelete(db, user, now).value, dish)
  {
    hide OpenItemsOf, InClosedOrder, HandedOver, Released, SnapsOf;
  }

  lemma BuriedAfter(db: Db, stmt: Stmt, dish: Id)
    requires OffTheMenu(db, dish) && !Remints(stmt, dish)
    ensures BuriedStill(db, After(db, stmt), dish)
  {
    if WritesMenu(stmt) {
      MenuKeepsTables(db, stmt);
      MenuKeepsBuried(db, stmt, dish);
      hide After;
    } else if stmt.Clean? {
      SweptDishStays(db, stmt.sweep, stmt.now, stmt.retention, dish);
      hide Swept, OffTheMenu, NoNewItemsOf;
    } else if stmt.HardDeleteRestaurant? {
      if HardDelete(db, stmt.id).Ok? { HardDeletedDishStays(db, stmt.id, dish); }
      hide HardDelete;
    } else {
      OrderWritesLeaveDishes(db, stmt, dish);
      if stmt.DeleteAccount? {
        if RemapAndDelete(db, stmt.user, stmt.now).Ok? { DeletionAddsNothing(db, stmt.user, stmt.now, dish); }
        hide RemapAndDelete;
      } else {
        hide Exec;
        if stmt.AddOrderItem? || stmt.UpdateOrderItem? || stmt.DeleteOrderItem? || stmt.SetOrderItemPaid? {
          if Exec(db, stmt).Ok? { ItemsAddNothingBuried(db, stmt, dish); }
        } else {
          OrderWritesAddNothing(db, stmt, dish);
        }
      }
    }
  }

  /**
   * Nobody orders a dish that has left the menu, however statements interleave: all the items of it
   * there will ever be were there when it left, and it never comes back.
   */
  lemma {:induction false} BuriedDishIsNotOrdered(db: Db, stmts: seq<Stmt>, dish: Id)
    requires OffTheMenu(db, dish) && forall s | s in stmts :: !Remints(s, dish)
    ensures BuriedStill(db, RunStatements(db, stmts), dish)
    decreases |stmts|
  {
    if stmts != [] {
      hide After, Remints;
      BuriedAfter(db, stmts[0], dish);
      BuriedDishIsNotOrdered(After(db, stmts[0]), stmts[1..], dish);
    }
  }

  /** Soft deletion takes a living dish off the menu, once, and touches no row but its own. */
  lemma SoftDeletedDish(db: Db, dish: Id)
    ensures Exec(db, SoftDeleteMenuItem(dish)).Ok? <==> dish in db.dishes && !OffTheMenu(db, dish)
    ensures Exec(db, SoftDeleteMenuItem(dish)).Ok? ==>
      && var db' := Exec(db, SoftDeleteMenuItem(dish)).value;
      && OffTheMenu(db', dish) && (forall o :: !Orderable(db', o, dish))
      && Exec(db', SoftDeleteMenuItem(dish)) == Err(NotFound)
      && db' == db.(dishes := db.dishes[dish := db'.dishes[dish]])
      && db'.dishes[dish] == db.dishes[dish].(deleted := true)
  {}

  // ----- restaurants, handler by handler -----

  /** Deleted if it is there at all, and without orders. */
  predicate Closed(db: Db, restaurant: Id) {
    (restaurant in db.restaurants ==> db.restaurants[restaurant].deleted) && !HasOrders(db, restaurant)
  }

  predicate Reopens(stmt: Stmt, restaurant: Id) { stmt.CreateRestaurant? && stmt.id == restaurant }

  /** A restaurant comes only under a new id, and never back from deletion. */
  predicate RestaurantStays(db: Db, db': Db, r: Id) {
    r in db'.restaurants ==> r in db.restaurants && (db.restaurants[r].deleted ==> db'.restaurants[r].deleted)
  }

  lemma SweepKeepsRestaurants(db: Db, sweep: Sweep, now: Time, retention: Time, r: Id)
    ensures RestaurantStays(db, Swept(db, sweep, now, retention), r)
  {
    hide Doomed;
  }

  lemma HardDeleteKeepsRestaurants(db: Db, id: Id, r: Id)
    requires HardDelete(db, id).Ok?
    ensures RestaurantStays(db, HardDelete(db, id).value, r)
  {}

  lemma RestaurantWritesStay(db: Db, stmt: Stmt, r: Id)
    requires (stmt.CreateRestaurant? && stmt.id != r) || stmt.UpdateRestaurant? || stmt.SoftDeleteRestaurant?
    ensures RestaurantStays(db, After(db, stmt), r)
  {
    hide InsertOrder, ChangeOrder, RemoveOrders, RemoveItems, NewItem, ChangeItem, RemapAndDelete, Draw, Swept,
      HardDelete, Ticked, NewUser, NewImage, NewCategory, BuryCategory, Unfiled, NewDish, ChangeDish, BuryDish,
      NewModification, ChangeModification, BuryModification, HasOrders;
  }

  lemma UnfilingKeepsRestaurants(db: Db, id: Id)
    ensures Unfiled(db, id).restaurants == db.restaurants
    ensures BuryCategory(db, id).Ok? ==> BuryCategory(db, id).value.restaurants == db.restaurants
  {}

  lemma CategoriesKeepRestaurants(db: Db, stmt: Stmt)
    requires stmt.CreateUser? || stmt.CreateImage? || stmt.CreateCategory?
    ensures After(db, stmt).restaurants == db.restaurants
  {
    hide InsertOrder, ChangeOrder, RemoveOrders, RemoveItems, NewItem, ChangeItem, RemapAndDelete, Draw, Swept,
      HardDelete, Ticked, NewRestaurant, ChangeRestaurant, BuryRestaurant, BuryCategory, Unfiled, NewDish, ChangeDish,
      BuryDish, NewModification, ChangeModification, BuryModification;
  }

  lemma DishesKeepRestaurants(db: Db, stmt: Stmt)
    requires stmt.CreateMenuItem? || stmt.UpdateMenuItem? || stmt.SoftDeleteMenuItem?
             || stmt.CreateModification? || stmt.UpdateModification? || stmt.SoftDeleteModification?
    ensures After(db, stmt).restaurants == db.restaurants
  {
    hide InsertOrder, ChangeOrder, RemoveOrders, RemoveItems, NewItem, ChangeItem, RemapAndDelete, Draw, Swept,
      HardDelete, Ticked, NewUser, NewImage, NewRestaurant, ChangeRestaurant, BuryRestaurant, NewCategory,
      BuryCategory, Unfiled, DishRefs;
  }

  lemma OtherMenuWritesKeepRestaurants(db: Db, stmt: Stmt)
    requires WritesMenu(stmt) && !stmt.CreateRestaurant? && !stmt.UpdateRestaurant? && !stmt.SoftDeleteRestaurant?
    ensures After(db, stmt).restaurants == db.restaurants
  {
    if stmt.SoftDeleteCategory? {
      UnfilingKeepsRestaurants(db, stmt.id);
      hide BuryCategory, Unfiled;
    } else {
      hide After;
      if stmt.CreateUser? || stmt.CreateImage? || stmt.CreateCategory? {
        CategoriesKeepRestaurants(db, stmt);
      } else {
        DishesKeepRestaurants(db, stmt);
      }
    }
  }

  lemma OrderWritesKeepRestaurants(db: Db, stmt: Stmt)
    requires !WritesMenu(stmt) && !stmt.Clean? && !stmt.HardDeleteRestaurant?
    ensures After(db, stmt).restaurants == db.restaurants
  {
    hide Swept, HardDelete, NewUser, NewImage, NewRestaurant, ChangeRestaurant, BuryRestaurant, NewCategory,
      BuryCategory, NewDish, ChangeDish, BuryDish, NewModification, ChangeModification, BuryModification, Unfiled;
  }

  lemma RestaurantStaysAfter(db: Db, stmt: Stmt, r: Id)
    requires !Reopens(stmt, r)
    ensures RestaurantStays(db, After(db, stmt), r)
  {
    if stmt.CreateRestaurant? || stmt.UpdateRestaurant? || stmt.SoftDeleteRestaurant? {
      RestaurantWritesStay(db, stmt, r);
      hide After;
    } else if WritesMenu(stmt) {
      OtherMenuWritesKeepRestaurants(db, stmt);
      hide After;
    } else if stmt.Clean? {
      SweepKeepsRestaurants(db, stmt.sweep, stmt.now, stmt.retention, r);
      hide Swept;
    } else if stmt.HardDeleteRestaurant? {
      if HardDelete(db, stmt.id).Ok? { HardDeleteKeepsRestaurants(db, stmt.id, r); }
      hide HardDelete;
    } else {
      OrderWritesKeepRestaurants(db, stmt);
      hide After;
    }
  }

  /** An order is placed, or moved, only to a living restaurant: for moving it is the handler that asks. */
  lemma PlacedAtALivingOne(db: Db, e: Event, order: Id)
    requires WellFormed(e) && Places(Issued(db, e), order) && order in Next(db, e).orders
    ensures (order in db.orders && Next(db, e).orders[order].restaurant == db.orders[order].restaurant)
            || Living(db, Next(db, e).orders[order].restaurant)
  {
    NextIsAfter(db, e);
    var stmt := Issued(db, e);
    if stmt.UpdateOrder? {
      IssuedPatch(db, e, order);
      PlacedRow(db, stmt.id, stmt.update);
      hide ChangeOrder, Decide, HasItems;
    } else {
      hide Decide;
    }
  }

  lemma IssuedPatch(db: Db, e: Event, order: Id)
    requires WellFormed(e) && Issued(db, e).UpdateOrder? && Places(Issued(db, e), order)
    ensures Living(db, Issued(db, e).update.restaurant.value)
  {}

  lemma PlacedRow(db: Db, order: Id, u: OrderUpdate)
    requires u.restaurant.Some?
    ensures ChangeOrder(db, order, u).Ok? ==>
              order in ChangeOrder(db, order, u).value.orders
              && ChangeOrder(db, order, u).value.orders[order].restaurant == u.restaurant.value
  {
    if ChangeOrder(db, order, u).Ok? {
      var row := Patched(db.orders[order], u, db.restaurants);
      assert ChangeOrder(db, order, u).value == db.(orders := db.orders[order := row]);
      hide ChangeOrder;
    }
  }

  lemma ClosedStays(db: Db, e: Event, r: Id)
    requires WellFormed(e) && Closed(db, r) && !Reopens(Issued(db, e), r)
    ensures Closed(Next(db, e), r)
  {
    NextIsAfter(db, e);
    RestaurantStaysAfter(db, Issued(db, e), r);
    var db' := Next(db, e);
    forall o | o in db'.orders
      ensures db'.orders[o].restaurant != r
    {
      OrderCarriedAfter(db, Issued(db, e), o);
      if Places(Issued(db, e), o) { PlacedAtALivingOne(db, e, o); }
      hide Next, After, Issued, Places;
    }
    hide Next, After, Issued;
  }

  /** No event of the run gives this id to a new restaurant. */
  predicate NeverReopened(db: Db, events: seq<Event>, r: Id)
    decreases |events|
  {
    events != [] ==> !Reopens(Issued(db, events[0]), r) && NeverReopened(Next(db, events[0]), events[1..], r)
  }

  /** Once deleted, which takes that no order is at it, a restaurant stays without orders in every run. */
  lemma {:induction false} DeletedRestaurantTakesNoOrder(db: Db, start: Time, events: seq<Event>, r: Id)
    requires Timely(start, events) && Closed(db, r) && NeverReopened(db, events, r)
    ensures Closed(Run(db, events), r)
    decreases |events|
  {
    if events != [] {
      hide Next, Closed, Issued, WellFormed;
      ClosedStays(db, events[0], r);
      DeletedRestaurantTakesNoOrder(Next(db, events[0]), events[0].at, events[1..], r);
    }
  }

  /** Soft deletion closes a living restaurant without orders, once, and touches no row but its own. */
  lemma SoftDeletedRestaurant(db: Db, r: Id)
    ensures Exec(db, SoftDeleteRestaurant(r)).Ok? <==> Living(db, r) && !HasOrders(db, r)
    ensures Exec(db, SoftDeleteRestaurant(r)) == Err(StillReferenced) <==> HasOrders(db, r)
    ensures Exec(db, SoftDeleteRestaurant(r)).Ok? ==>
      && var db' := Exec(db, SoftDeleteRestaurant(r)).value;
      && Closed(db', r) && Exec(db', SoftDeleteRestaurant(r)) == Err(NotFound)
      && db' == db.(restaurants := db.restaurants[r := db'.restaurants[r]])
      && db'.restaurants[r] == db.restaurants[r].(deleted := true)
  {}

  // ----- restaurants, statement by statement -----

  /** A patch that puts its order at the restaurant. */
  predicate MovesTo(db: Db, stmt: Stmt, r: Id) {
    stmt.UpdateOrder? && stmt.update.restaurant == Some(r) && ChangeOrder(db, stmt.id, stmt.update).Ok?
  }

  lemma PlacedByAnOrder(db: Db, stmt: Stmt, r: Id)
    requires stmt.CreateOrder? && Closed(db, r)
    ensures forall o | o in After(db, stmt).orders && o == stmt.id :: After(db, stmt).orders[o].restaurant != r
  {
    hide ChangeOrder, NewItem, ChangeItem, RemapAndDelete, Draw, Swept, HardDelete;
  }

  lemma PlacedByAPatch(db: Db, stmt: Stmt, r: Id)
    requires stmt.UpdateOrder? && stmt.update.restaurant.Some? && !HasOrders(db, r)
    ensures var db' := After(db, stmt);
            MovesTo(db, stmt, r) <==> stmt.id in db'.orders && db'.orders[stmt.id].restaurant == r
  {
    PlacedRow(db, stmt.id, stmt.update);
    hide ChangeOrder;
  }

  lemma NoOrderMovedTo(db: Db, stmt: Stmt, r: Id, o: Id)
    requires Closed(db, r) && !MovesTo(db, stmt, r) && o in After(db, stmt).orders
    ensures After(db, stmt).orders[o].restaurant != r
  {
    OrderCarriedAfter(db, stmt, o);
    if stmt.CreateOrder? {
      PlacedByAnOrder(db, stmt, r);
    } else if stmt.UpdateOrder? && stmt.update.restaurant.Some? {
      PlacedByAPatch(db, stmt, r);
    }
    hide After, MovesTo;
  }

  /**
   * Of all statements the patch that moves an order there is the only one to break it: the update looks
   * at the reference and not at the flag, which is for the handler to ask about.
   */
  lemma ClosedUnlessMovedTo(db: Db, stmt: Stmt, r: Id)
    requires Closed(db, r) && !Reopens(stmt, r)
    ensures Closed(After(db, stmt), r) <==> !MovesTo(db, stmt, r)
  {
    RestaurantStaysAfter(db, stmt, r);
    if MovesTo(db, stmt, r) {
      PlacedByAPatch(db, stmt, r);
    } else {
      forall o | o in After(db, stmt).orders
        ensures After(db, stmt).orders[o].restaurant != r
      {
        NoOrderMovedTo(db, stmt, r, o);
      }
    }
    hide After, ChangeOrder;
  }

  predicate ClosedThroughout(db: Db, stmts: seq<Stmt>, r: Id)
    decreases |stmts|
  {
    Closed(db, r) && (stmts != [] ==> ClosedThroughout(After(db, stmts[0]), stmts[1..], r))
  }

  predicate SomeMovesTo(db: Db, stmts: seq<Stmt>, r: Id)
    decreases |stmts|
  {
    stmts != [] && (MovesTo(db, stmts[0], r) || SomeMovesTo(After(db, stmts[0]), stmts[1..], r))
  }

  /** However statements interleave, a deleted restaurant has no order at any time unless one of them is such a move. */
  lemma {:induction false} ClosedThroughoutIff(db: Db, stmts: seq<Stmt>, r: Id)
    requires Closed(db, r) && forall s | s in stmts :: !Reopens(s, r)
    ensures ClosedThroughout(db, stmts, r) <==> !SomeMovesTo(db, stmts, r)
    decreases |stmts|
  {
    if stmts != [] {
      hide After, MovesTo, Closed, Reopens;
      ClosedUnlessMovedTo(db, stmts[0], r);
      if !MovesTo(db, stmts[0], r) { ClosedThroughoutIff(After(db, stmts[0]), stmts[1..], r); }
    }
  }

  lemma PatchIssued(db: Db, now: Time, who: Option<Principal>, order: Id, body: OrderUpdate)
    requires Decide(db, now, who, PatchIt(order, body)).Ok?
    ensures Decide(db, now, who, PatchIt(order, body)).value == UpdateOrder(order, body)
  {}

  lemma MovedAfterBurial(db: Db, now: Time, who: Option<Principal>, order: Id, body: OrderUpdate)
    requires Consistent(db) && body.restaurant.Some? && !HasOrders(db, body.restaurant.value)
    requires Decide(db, now, who, PatchIt(order, body)).Ok?
    ensures Closed(After(db, SoftDeleteRestaurant(body.restaurant.value)), body.restaurant.value)
    ensures MovesTo(After(db, SoftDeleteRestaurant(body.restaurant.value)), UpdateOrder(order, body), body.restaurant.value)
  {}

  /**
   * A handler issues such a move in time, and with a soft deletion in between the statement succeeds all
   * the same: the deleted restaurant has an order.
   */
  lemma LateMoveReachesADeletedRestaurant(db: Db, now: Time, who: Option<Principal>, order: Id, body: OrderUpdate)
    requires Consistent(db) && body.restaurant.Some? && !HasOrders(db, body.restaurant.value)
    requires Decide(db, now, who, PatchIt(order, body)).Ok?
    ensures
      var r := body.restaurant.value;
      var db1, stmt := After(db, SoftDeleteRestaurant(r)), Decide(db, now, who, PatchIt(order, body)).value;
      && Closed(db1, r) && MovesTo(db1, stmt, r) && !Closed(After(db1, stmt), r)
      && order in After(db1, stmt).orders && After(db1, stmt).orders[order].restaurant == r
  {
    var r := body.restaurant.value;
    var db1, stmt := After(db, SoftDeleteRestaurant(r)), UpdateOrder(order, body);
    PatchIssued(db, now, who, order, body);
    MovedAfterBurial(db, now, who, order, body);
    hide Decide, Consistent;
    PlacedByAPatch(db1, stmt, r);
    ClosedUnlessMovedTo(db1, stmt, r);
    hide ChangeOrder;
  }
}
