/**
 * The same tables at statement granularity: handlers run at once, and between what one read and
 * what it writes anything may have been written. What holds here rests on the statements alone.
 */
module Interleaving {
  import opened Prelude
  import opened Schema
  import opened Sql
  import opened SqlInvariants
  import opened Sparing
  import opened Handlers

  function RunStatements(db: Db, stmts: seq<Stmt>): Db
    decreases |stmts|
  {
    if stmts == [] then db else RunStatements(After(db, stmts[0]), stmts[1..])
  }

  /**
   * Whatever the handlers read and however their statements interleave, every item stays a dish of
   * its order's current restaurant, every snapshot a modification of that dish, and every deadline
   * before its fulfilment: UpdateOrder's NOT EXISTS and AddOrderItem's join are enough.
   */
  lemma {:induction false} AnyInterleavingKeeps(db: Db, stmts: seq<Stmt>)
    requires Consistent(db)
    ensures Consistent(RunStatements(db, stmts))
    decreases |stmts|
  {
    if stmts != [] {
      hide Consistent, After;
      ConsistentAfter(db, stmts[0]);
      AnyInterleavingKeeps(After(db, stmts[0]), stmts[1..]);
    }
  }

  lemma ConsistentAfter(db: Db, stmt: Stmt)
    requires Consistent(db)
    ensures Consistent(After(db, stmt))
  {
    ExecKeeps(db, stmt);
  }

  // ----- inside AddOrderItem's transaction -----

  /** The SELECT: the dish's name and price, if it may be ordered. */
  function JoinHalf(db: Db, order: Id, dish: Id): Result<(string, int), DbError> {
    if !Orderable(db, order, dish) then Err(WrongRestaurant)
    else if !db.dishes[dish].available then Err(ItemUnavailable)
    else Ok((db.dishes[dish].name, db.dishes[dish].price))
  }

  /** The INSERT and the snapshots, with the name and price the SELECT returned. */
  function InsertingHalf(db: Db, id: Id, order: Id, user: Id, dish: Id, quantity: int, note: string,
                         row: (string, int), chosen: seq<Id>, minted: map<Id, Id>): Result<Db, DbError>
  {
    match InsertItem(db, id, order, user, dish, quantity, note, row.0, row.1)
    case Err(e) => Err(e)
    case Ok(db1) => Snapshotting(db1, id, dish, chosen, minted)
  }

  /** With nothing in between, the two halves are the transaction. */
  lemma HalvesMakeTheWhole(db: Db, id: Id, order: Id, user: Id, dish: Id, quantity: int, note: string,
                           chosen: seq<Id>, served: bool, minted: map<Id, Id>)
    ensures NewItem(db, id, order, user, dish, quantity, note, chosen, served, minted)
            == match JoinHalf(db, order, dish)
               case Err(e) => Err(e)
               case Ok(row) =>
                 if !served then Err(ItemNotServedThen)
                 else InsertingHalf(db, id, order, user, dish, quantity, note, row, chosen, minted)
  {}

  /** What the INSERT leaves is consistent exactly when the order is then still at the dish's restaurant. */
  lemma InsertHalfKeepsIff(db: Db, id: Id, order: Id, user: Id, dish: Id, quantity: int, note: string,
                           name: string, price: int)
    requires Consistent(db)
    requires InsertItem(db, id, order, user, dish, quantity, note, name, price).Ok?
    ensures Consistent(InsertItem(db, id, order, user, dish, quantity, note, name, price).value)
            <==> db.dishes[dish].restaurant == db.orders[order].restaurant
  {
    var db' := InsertItem(db, id, order, user, dish, quantity, note, name, price).value;
    if db.dishes[dish].restaurant == db.orders[order].restaurant {
      WriteItemsKeeps(db, db'.items);
    } else {
      assert db'.items[id].order == order && db'.items[id].dish == dish;
    }
  }

  /** The snapshots of the same transaction neither break the rule nor mend it. */
  lemma SnapshotsDoNotMend(db: Db, item: Id, chosen: seq<Id>, minted: map<Id, Id>)
    requires item in db.items && Integrity(db)
    requires Snapshotting(db, item, db.items[item].dish, chosen, minted).Ok?
    ensures Consistent(db) ==> Consistent(Snapshotting(db, item, db.items[item].dish, chosen, minted).value)
    ensures !AtItsRestaurant(db) ==> !Consistent(Snapshotting(db, item, db.items[item].dish, chosen, minted).value)
  {
    SnapshottingKeeps(db, item, db.items[item].dish, chosen, minted);
    SnapshottingKeepsPlaces(db, item, db.items[item].dish, chosen, minted);
    hide Integrity, Snapshotting;
  }

  lemma SnapshottingKeepsPlaces(db: Db, item: Id, dish: Id, chosen: seq<Id>, minted: map<Id, Id>)
    requires Snapshotting(db, item, dish, chosen, minted).Ok?
    ensures AtItsRestaurant(Snapshotting(db, item, dish, chosen, minted).value) == AtItsRestaurant(db)
    ensures Snapshotting(db, item, dish, chosen, minted).value.items == db.items
  {}

  // ----- what may run between the halves -----

  /** A dish stays at its restaurant, or goes for good. */
  predicate DishStays(db: Db, db': Db, dish: Id) {
    dish in db'.dishes ==> dish in db.dishes && db'.dishes[dish].restaurant == db.dishes[dish].restaurant
  }

  predicate OrderStays(db: Db, db': Db, order: Id) {
    order in db'.orders ==> order in db.orders && db'.orders[order].restaurant == db.orders[order].restaurant
  }

  /** The ids minted for new dishes are new. */
  predicate Remints(stmt: Stmt, dish: Id) { stmt.CreateMenuItem? && stmt.id == dish }

  /** The statements that give this order a restaurant. */
  predicate Places(stmt: Stmt, order: Id) {
    (stmt.UpdateOrder? && stmt.id == order && stmt.update.restaurant.Some?) || (stmt.CreateOrder? && stmt.id == order)
  }

  lemma DishTableStays(db: Db, db': Db, dish: Id)
    requires db'.dishes == db.dishes
    ensures DishStays(db, db', dish)
  {}

  lemma SweepLeavesDishes(db: Db, sweep: Sweep, now: Time, retention: Time, dish: Id)
    ensures DishStays(db, Swept(db, sweep, now, retention), dish)
  {
    hide Doomed;
  }

  lemma HardDeleteLeavesDishes(db: Db, restaurant: Id, dish: Id)
    ensures HardDelete(db, restaurant).Ok? ==> DishStays(db, HardDelete(db, restaurant).value, dish)
  {}

  lemma RestaurantsLeaveDishes(db: Db, stmt: Stmt)
    requires stmt.CreateRestaurant? || stmt.UpdateRestaurant? || stmt.SoftDeleteRestaurant?
             || stmt.CreateUser? || stmt.CreateImage? || stmt.CreateCategory?
    ensures After(db, stmt).dishes == db.dishes
  {
    hide InsertOrder, ChangeOrder, RemoveOrders, RemoveItems, NewItem, ChangeItem, RemapAndDelete, Draw, Swept,
      HardDelete, Ticked, BuryCategory, NewDish, ChangeDish, BuryDish, NewModification, ChangeModification,
      BuryModification, Unfiled;
  }

  lemma ModificationsLeaveDishes(db: Db, stmt: Stmt)
    requires stmt.CreateModification? || stmt.UpdateModification? || stmt.SoftDeleteModification?
    ensures After(db, stmt).dishes == db.dishes
  {
    hide InsertOrder, ChangeOrder, RemoveOrders, RemoveItems, NewItem, ChangeItem, RemapAndDelete, Draw, Swept,
      HardDelete, Ticked, NewUser, NewImage, NewRestaurant, ChangeRestaurant, BuryRestaurant, NewCategory,
      BuryCategory, NewDish, ChangeDish, BuryDish, Unfiled;
  }

  lemma DishWritesStay(db: Db, stmt: Stmt, dish: Id)
    requires (stmt.CreateMenuItem? && stmt.id != dish) || stmt.UpdateMenuItem? || stmt.SoftDeleteMenuItem?
    ensures DishStays(db, After(db, stmt), dish)
  {
    hide InsertOrder, ChangeOrder, RemoveOrders, RemoveItems, NewItem, ChangeItem, RemapAndDelete, Draw, Swept,
      HardDelete, Ticked, NewUser, NewImage, NewRestaurant, ChangeRestaurant, BuryRestaurant, NewCategory,
      BuryCategory, Unfiled, NewModification, ChangeModification, BuryModification, DishRefs;
  }

  lemma UnfilingStays(db: Db, id: Id, dish: Id)
    ensures DishStays(db, Unfiled(db, id), dish)
    ensures BuryCategory(db, id).Ok? ==> DishStays(db, BuryCategory(db, id).value, dish)
  {}

  lemma MenuLeavesDishes(db: Db, stmt: Stmt, dish: Id)
    requires WritesMenu(stmt) && !Remints(stmt, dish)
    ensures DishStays(db, After(db, stmt), dish)
  {
    if stmt.SoftDeleteCategory? {
      UnfilingStays(db, stmt.id, dish);
      hide BuryCategory, Unfiled, DishStays;
    } else {
      hide After;
      if stmt.CreateModification? || stmt.UpdateModification? || stmt.SoftDeleteModification? {
        ModificationsLeaveDishes(db, stmt);
      } else if stmt.CreateMenuItem? || stmt.UpdateMenuItem? || stmt.SoftDeleteMenuItem? {
        DishWritesStay(db, stmt, dish);
      } else {
        RestaurantsLeaveDishes(db, stmt);
      }
    }
  }

  lemma OrderWritesLeaveDishes(db: Db, stmt: Stmt, dish: Id)
    requires !WritesMenu(stmt) && !stmt.Clean? && !stmt.HardDeleteRestaurant?
    ensures After(db, stmt).dishes == db.dishes
  {
    hide Swept, HardDelete, NewUser, NewImage, NewRestaurant, ChangeRestaurant, BuryRestaurant, NewCategory,
      BuryCategory, NewDish, ChangeDish, BuryDish, NewModification, ChangeModification, BuryModification, Unfiled;
  }

  lemma DishStaysAfter(db: Db, stmt: Stmt, dish: Id)
    requires !Remints(stmt, dish)
    ensures DishStays(db, After(db, stmt), dish)
  {
    if WritesMenu(stmt) {
      MenuLeavesDishes(db, stmt, dish);
    } else if stmt.Clean? {
      SweepLeavesDishes(db, stmt.sweep, stmt.now, stmt.retention, dish);
    } else if stmt.HardDeleteRestaurant? {
      HardDeleteLeavesDishes(db, stmt.id, dish);
      hide HardDelete;
    } else {
      OrderWritesLeaveDishes(db, stmt, dish);
      hide After;
    }
  }

  lemma {:induction false} DishStaysThroughout(db: Db, stmts: seq<Stmt>, dish: Id)
    requires forall s | s in stmts :: !Remints(s, dish)
    ensures DishStays(db, RunStatements(db, stmts), dish)
    decreases |stmts|
  {
    if stmts != [] {
      hide After, Remints;
      DishStaysAfter(db, stmts[0], dish);
      DishStaysThroughout(After(db, stmts[0]), stmts[1..], dish);
    }
  }

  /** What statements but the order's own keep of an order that stays; its flag all of them do. */
  predicate OrderCarried(db: Db, db': Db, stmt: Stmt, order: Id) {
    && (!Places(stmt, order) ==> OrderStays(db, db', order))
    && (order in db.orders && order in db'.orders ==>
          && (db.orders[order].jobsDrawn ==> db'.orders[order].jobsDrawn)
          && (!(stmt.UpdateOrder? && stmt.id == order) ==> db'.orders[order].deadlineAt == db.orders[order].deadlineAt))
  }

  lemma RemovalsKeepOrders(db: Db, gone: set<Id>)
    ensures RemoveMods(db, gone).orders == db.orders && RemoveDishes(db, gone).orders == db.orders
    ensures RemoveCategories(db, gone).orders == db.orders && RemoveImages(db, gone).orders == db.orders
  {}

  lemma RemovingRestaurantsKeepsOrders(db: Db, gone: set<Id>)
    ensures RemoveRestaurants(db, gone).orders == db.orders
  {
    RemovalsKeepOrders(db, DishesOf(db, gone));
    var db1 := RemoveDishes(db, DishesOf(db, gone));
    RemovalsKeepOrders(db1, CategoriesOf(db1, gone));
    hide RemoveDishes, RemoveCategories;
  }

  lemma SweepsKeepOrders(db: Db, sweep: Sweep, now: Time, retention: Time)
    requires sweep != OldOrders
    ensures Swept(db, sweep, now, retention).orders == db.orders
  {
    hide Doomed, RemoveOrders, RemoveMods, RemoveDishes, RemoveCategories, RemoveRestaurants, RemoveImages;
    var gone := Doomed(db, sweep, now, retention);
    RemovalsKeepOrders(db, gone);
    RemovingRestaurantsKeepsOrders(db, gone);
  }

  lemma SweepCarriesOrders(db: Db, stmt: Stmt, order: Id)
    requires stmt.Clean?
    ensures OrderCarried(db, Swept(db, stmt.sweep, stmt.now, stmt.retention), stmt, order)
  {
    if stmt.sweep == OldOrders {
      RemoveOrdersGone(db, Doomed(db, stmt.sweep, stmt.now, stmt.retention), order);
      hide Doomed, RemoveOrders, RemoveMods, RemoveDishes, RemoveCategories, RemoveRestaurants, RemoveImages;
    } else {
      SweepsKeepOrders(db, stmt.sweep, stmt.now, stmt.retention);
      hide Swept;
    }
  }

  lemma HardDeleteCarriesOrders(db: Db, stmt: Stmt, order: Id)
    requires stmt.HardDeleteRestaurant? && HardDelete(db, stmt.id).Ok?
    ensures OrderCarried(db, HardDelete(db, stmt.id).value, stmt, order)
  {
    var gone := set o | o in db.orders && db.orders[o].restaurant == stmt.id;
    RemoveOrdersGone(db, gone, order);
    RemovingRestaurantsKeepsOrders(RemoveOrders(db, gone), {stmt.id});
    hide RemoveOrders, RemoveRestaurants, DishesOf;
  }

  lemma ItemsCarryOrders(db: Db, stmt: Stmt)
    requires stmt.AddOrderItem? || stmt.UpdateOrderItem? || stmt.DeleteOrderItem? || stmt.SetOrderItemPaid?
    ensures After(db, stmt).orders == db.orders
  {
    hide InsertOrder, ChangeOrder, RemoveOrders, RemapAndDelete, Draw, Swept, HardDelete, NewUser, NewImage, NewRestaurant,
      ChangeRestaurant, BuryRestaurant, NewCategory, BuryCategory, NewDish, ChangeDish, BuryDish, NewModification,
      ChangeModification, BuryModification, Unfiled;
  }

  lemma InsertCarries(db: Db, stmt: Stmt, order: Id)
    requires stmt.CreateOrder? && Exec(db, stmt).Ok?
    ensures OrderCarried(db, Exec(db, stmt).value, stmt, order)
  {}

  lemma ChangedRow(db: Db, id: Id, u: OrderUpdate)
    requires ChangeOrder(db, id, u).Ok?
    ensures var db' := ChangeOrder(db, id, u).value;
      && id in db.orders && db'.orders.Keys == db.orders.Keys
      && db'.orders[id].jobsDrawn == db.orders[id].jobsDrawn
      && (u.restaurant.None? ==> db'.orders[id].restaurant == db.orders[id].restaurant)
  {
    if u != NO_UPDATE {
      var row := Patched(db.orders[id], u, db.restaurants);
      assert ChangeOrder(db, id, u).value == db.(orders := db.orders[id := row]);
      hide ChangeOrder;
    }
  }

  lemma ChangeCarries(db: Db, stmt: Stmt, order: Id)
    requires stmt.UpdateOrder? && ChangeOrder(db, stmt.id, stmt.update).Ok?
    ensures OrderCarried(db, ChangeOrder(db, stmt.id, stmt.update).value, stmt, order)
  {
    ChangeOrderKeepsTables(db, stmt.id, stmt.update);
    ChangedRow(db, stmt.id, stmt.update);
    hide ChangeOrder;
  }

  lemma DrawCarries(db: Db, stmt: Stmt, order: Id)
    requires stmt.DrawJobs? && Draw(db, stmt.now, stmt.locked, stmt.picks).Ok?
    ensures OrderCarried(db, Draw(db, stmt.now, stmt.locked, stmt.picks).value, stmt, order)
  {
    hide LegalPicks, PickFor;
  }

  lemma DeletionCarries(db: Db, stmt: Stmt, order: Id)
    requires stmt.DeleteAccount? && RemapAndDelete(db, stmt.user, stmt.now).Ok?
    ensures OrderCarried(db, RemapAndDelete(db, stmt.user, stmt.now).value, stmt, order)
  {}

  lemma OwnWritesCarry(db: Db, stmt: Stmt, order: Id)
    requires stmt.CreateOrder? || stmt.UpdateOrder? || stmt.DeleteOrder? || stmt.DeleteAccount? || stmt.DrawJobs? || stmt.Nothing?
    requires Exec(db, stmt).Ok?
    ensures OrderCarried(db, Exec(db, stmt).value, stmt, order)
  {
    hide InsertOrder, ChangeOrder, Draw, RemapAndDelete, RemoveOrders, NewItem, ChangeItem, Swept, HardDelete;
    match stmt
    case CreateOrder(_, _, _, _, _, _, _, _) => InsertCarries(db, stmt, order);
    case UpdateOrder(_, _) => ChangeCarries(db, stmt, order);
    case DeleteOrder(id) => RemoveOrdersGone(db, {id}, order);
    case DrawJobs(_, _, _) => DrawCarries(db, stmt, order);
    case DeleteAccount(_, _) => DeletionCarries(db, stmt, order);
    case _ =>
  }

  lemma OrderCarriedAfter(db: Db, stmt: Stmt, order: Id)
    ensures OrderCarried(db, After(db, stmt), stmt, order)
  {
    if WritesMenu(stmt) {
      MenuKeepsTables(db, stmt);
      hide After;
    } else if stmt.Clean? {
      SweepCarriesOrders(db, stmt, order);
      hide Swept, OrderCarried;
    } else if stmt.HardDeleteRestaurant? {
      if HardDelete(db, stmt.id).Ok? { HardDeleteCarriesOrders(db, stmt, order); }
      hide HardDelete;
    } else if stmt.AddOrderItem? || stmt.UpdateOrderItem? || stmt.DeleteOrderItem? || stmt.SetOrderItemPaid? {
      ItemsCarryOrders(db, stmt);
      hide After;
    } else {
      if Exec(db, stmt).Ok? { OwnWritesCarry(db, stmt, order); }
      hide Exec;
    }
  }

  lemma {:induction false} OrderStaysThroughout(db: Db, stmts: seq<Stmt>, order: Id)
    requires forall s | s in stmts :: !Places(s, order)
    ensures OrderStays(db, RunStatements(db, stmts), order)
    decreases |stmts|
  {
    if stmts != [] {
      OrderCarriedAfter(db, stmts[0], order);
      hide After, Places;
      OrderStaysThroughout(After(db, stmts[0]), stmts[1..], order);
    }
  }

  // ----- the transaction with anything in between -----

  lemma InsertingIs(db: Db, id: Id, order: Id, user: Id, dish: Id, quantity: int, note: string,
                    row: (string, int), chosen: seq<Id>, minted: map<Id, Id>)
    requires InsertingHalf(db, id, order, user, dish, quantity, note, row, chosen, minted).Ok?
    ensures order in db.orders && dish in db.dishes
    ensures var inserted := InsertItem(db, id, order, user, dish, quantity, note, row.0, row.1);
      && inserted.Ok? && id in inserted.value.items
      && inserted.value == db.(items := inserted.value.items)
      && inserted.value.items[id] == OrderItem(order, user, dish, quantity, row.0, row.1, note, false)
      && Snapshotting(inserted.value, id, dish, chosen, minted)
         == InsertingHalf(db, id, order, user, dish, quantity, note, row, chosen, minted)
  {
    hide Snapshotting;
  }

  lemma InsertingKeepsIff(db: Db, id: Id, order: Id, user: Id, dish: Id, quantity: int, note: string,
                          row: (string, int), chosen: seq<Id>, minted: map<Id, Id>)
    requires Consistent(db)
    requires InsertingHalf(db, id, order, user, dish, quantity, note, row, chosen, minted).Ok?
    ensures order in db.orders && dish in db.dishes
    ensures Consistent(InsertingHalf(db, id, order, user, dish, quantity, note, row, chosen, minted).value)
            <==> db.dishes[dish].restaurant == db.orders[order].restaurant
  {
    InsertingIs(db, id, order, user, dish, quantity, note, row, chosen, minted);
    var db1 := InsertItem(db, id, order, user, dish, quantity, note, row.0, row.1).value;
    InsertHalfKeepsIff(db, id, order, user, dish, quantity, note, row.0, row.1);
    InsertedIsWhole(db, id, db1.items[id]);
    MisplacedShows(db1, id);
    hide Integrity, AtItsRestaurant, Consistent, InsertItem, Snapshotting, InsertingHalf;
    SnapshotsDoNotMend(db1, id, chosen, minted);
  }

  lemma InsertedIsWhole(db: Db, id: Id, row: OrderItem)
    requires Integrity(db) && ItemRefs(db, row)
    ensures Integrity(db.(items := db.items[id := row]))
  {
    WriteItemsKeeps(db, db.items[id := row]);
  }

  lemma MisplacedShows(db: Db, id: Id)
    requires id in db.items && db.items[id].dish in db.dishes && db.items[id].order in db.orders
    ensures db.dishes[db.items[id].dish].restaurant != db.orders[db.items[id].order].restaurant ==> !AtItsRestaurant(db)
  {}

  /**
   * Whatever runs between the SELECT and the INSERT: what the transaction leaves is consistent if and
   * only if the order is then at the restaurant it was at when the dish was read; and the item has the
   * name and price that were read, whatever has become of the dish.
   */
  lemma AddingKeepsIff(db: Db, stmts: seq<Stmt>, id: Id, order: Id, user: Id, dish: Id, quantity: int, note: string,
                       chosen: seq<Id>, minted: map<Id, Id>)
    requires Consistent(db) && JoinHalf(db, order, dish).Ok? && forall s | s in stmts :: !Remints(s, dish)
    requires InsertingHalf(RunStatements(db, stmts), id, order, user, dish, quantity, note,
                           JoinHalf(db, order, dish).value, chosen, minted).Ok?
    ensures order in db.orders && dish in db.dishes && order in RunStatements(db, stmts).orders
    ensures var db' := RunStatements(db, stmts);
            var added := InsertingHalf(db', id, order, user, dish, quantity, note,
                                       JoinHalf(db, order, dish).value, chosen, minted).value;
      && (Consistent(added) <==> db'.orders[order].restaurant == db.orders[order].restaurant)
      && id in added.items
      && added.items[id].name == db.dishes[dish].name && added.items[id].unitPrice == db.dishes[dish].price
  {
    var db' := RunStatements(db, stmts);
    var row := JoinHalf(db, order, dish).value;
    AnyInterleavingKeeps(db, stmts);
    DishStaysThroughout(db, stmts, dish);
    InsertingIs(db', id, order, user, dish, quantity, note, row, chosen, minted);
    SnapshottingKeepsPlaces(InsertItem(db', id, order, user, dish, quantity, note, row.0, row.1).value, id, dish, chosen, minted);
    hide Integrity, Consistent, RunStatements, InsertingHalf, Remints, AtItsRestaurant;
    InsertingKeepsIff(db', id, order, user, dish, quantity, note, row, chosen, minted);
  }

  /** So the rule is safe from everything but a statement that places this very order elsewhere. */
  lemma AddingKeepsUnlessMoved(db: Db, stmts: seq<Stmt>, id: Id, order: Id, user: Id, dish: Id, quantity: int,
                               note: string, chosen: seq<Id>, minted: map<Id, Id>)
    requires Consistent(db) && JoinHalf(db, order, dish).Ok?
    requires forall s | s in stmts :: !Remints(s, dish) && !Places(s, order)
    requires InsertingHalf(RunStatements(db, stmts), id, order, user, dish, quantity, note,
                           JoinHalf(db, order, dish).value, chosen, minted).Ok?
    ensures Consistent(InsertingHalf(RunStatements(db, stmts), id, order, user, dish, quantity, note,
                                     JoinHalf(db, order, dish).value, chosen, minted).value)
  {
    hide Consistent, RunStatements, InsertingHalf, Remints, Places, JoinHalf;
    AddingKeepsIff(db, stmts, id, order, user, dish, quantity, note, chosen, minted);
    OrderStaysThroughout(db, stmts, order);
  }

  const ONE_TERMS := Terms("EUR", None, None)

  /** Two restaurants, one dish at the first, and an empty order there. */
  const TWO_PLACES := Db(
    map[PLACEHOLDER := User(false), 7 := User(false)], map[],
    map[1 := Restaurant(ONE_TERMS, None, false), 2 := Restaurant(ONE_TERMS, None, false)], map[],
    map[5 := Dish(1, None, None, "Doener", 650, true, false)], map[],
    map[3 := Order(7, 1, Pickup, 200, 100, None, None, ONE_TERMS, false, false, false)],
    map[], map[], map[], map[])

  /**
   * Under READ COMMITTED the two halves are separate reads, and UpdateOrder may commit between
   * them: each statement succeeds, and the order ends at one restaurant holding another's food.
   */
  lemma RestaurantMayMoveBetweenHalves()
    ensures Consistent(TWO_PLACES)
    ensures JoinHalf(TWO_PLACES, 3, 5).Ok?
    ensures var moved := Exec(TWO_PLACES, UpdateOrder(3, NO_UPDATE.(restaurant := Some(2))));
            && moved.Ok?
            && var added := InsertItem(moved.value, 9, 3, 7, 5, 1, "", "Doener", 650);
               added.Ok? && !Consistent(added.value)
  {
    var moved := Exec(TWO_PLACES, UpdateOrder(3, NO_UPDATE.(restaurant := Some(2))));
    assert !HasItems(TWO_PLACES, 3);
    assert moved.Ok?;
    ExecKeeps(TWO_PLACES, UpdateOrder(3, NO_UPDATE.(restaurant := Some(2))));
    InsertHalfKeepsIff(moved.value, 9, 3, 7, 5, 1, "", "Doener", 650);
  }

  // ----- what the statements do not repeat -----

  /** With nothing in between, a claim only ever fills a vacancy. */
  lemma ClaimFillsAVacancy(db: Db, now: Time, who: Option<Principal>, order: Id, job: Job)
    requires order in db.orders && Handle(db, now, who, ClaimJob(order, job)) != db
    ensures Holder(db.orders[order], job).None? && Active(db.orders[order], now)
    ensures order in Handle(db, now, who, ClaimJob(order, job)).orders
    ensures who.Some? && Holder(Handle(db, now, who, ClaimJob(order, job)).orders[order], job) == Some(who.value.id)
  {}

  /** Somebody did this job and does not any longer. */
  predicate LosesJob(db: Db, db': Db, order: Id, job: Job) {
    && order in db.orders && Holder(db.orders[order], job).Some?
    && (order in db'.orders ==> Holder(db'.orders[order], job) != Holder(db.orders[order], job))
  }

  /**
   * A claim decided on some tables and executed on any later ones: it succeeds for as long as the order
   * and the claimant are there, it then has the job, and it took it from somebody if and only if
   * another person had come to hold it in the meantime. Everything else is as it was.
   */
  lemma ClaimOverwritesIff(db: Db, now: Time, who: Principal, order: Id, job: Job, db': Db)
    requires Decide(db, now, Some(who), ClaimJob(order, job)).Ok?
    requires Integrity(db') && order in db'.orders && who.id in db'.users
    ensures var stmt := Decide(db, now, Some(who), ClaimJob(order, job)).value;
            var done := After(db', stmt);
      && Exec(db', stmt).Ok? && order in done.orders
      && Holder(done.orders[order], job) == Some(who.id)
      && (LosesJob(db', done, order, job)
          <==> Holder(db'.orders[order], job).Some? && Holder(db'.orders[order], job) != Some(who.id))
      && done == db'.(orders := db'.orders[order := done.orders[order]])
      && done.orders[order] == db'.orders[order].(collector := done.orders[order].collector, pickup := done.orders[order].pickup)
      && (forall other: Job | other != job :: Holder(done.orders[order], other) == Holder(db'.orders[order], other))
  {
    ClaimIssues(db, now, who, order, job);
    hide Decide;
    AssignWorks(db', order, job, who.id);
  }

  lemma ClaimIssues(db: Db, now: Time, who: Principal, order: Id, job: Job)
    requires Decide(db, now, Some(who), ClaimJob(order, job)).Ok?
    ensures Decide(db, now, Some(who), ClaimJob(order, job)).value == UpdateOrder(order, Assign(job, Some(who.id)))
  {}

  lemma AssignWorks(db: Db, order: Id, job: Job, user: Id)
    requires Integrity(db) && order in db.orders && user in db.users
    ensures var u := Assign(job, Some(user));
            var row := Patched(db.orders[order], u, db.restaurants);
      && Exec(db, UpdateOrder(order, u)) == Ok(db.(orders := db.orders[order := row]))
      && After(db, UpdateOrder(order, u)) == db.(orders := db.orders[order := row])
  {
    var u := Assign(job, Some(user));
    var row := Patched(db.orders[order], u, db.restaurants);
    assert u.restaurant.None? && u != NO_UPDATE;
    assert row.deadlineAt < row.fulfilmentAt;
    hide Integrity;
    assert ChangeOrder(db, order, u) == Ok(db.(orders := db.orders[order := row]));
  }

  /** So of two claims that both saw the vacancy both succeed, and the second takes the job off the first. */
  lemma SecondClaimOverwrites(db: Db, now: Time, first: Principal, second: Principal, order: Id, job: Job)
    requires Consistent(db) && order in db.orders
    requires Active(db.orders[order], now) && Holder(db.orders[order], job).None?
    requires first.id in db.users && second.id in db.users
    ensures var c1 := Decide(db, now, Some(first), ClaimJob(order, job));
            var c2 := Decide(db, now, Some(second), ClaimJob(order, job));
            && c1.Ok? && c2.Ok?
            && order in After(db, c1.value).orders
            && Holder(After(db, c1.value).orders[order], job) == Some(first.id)
            && order in After(After(db, c1.value), c2.value).orders
            && Holder(After(After(db, c1.value), c2.value).orders[order], job) == Some(second.id)
            && (LosesJob(After(db, c1.value), After(After(db, c1.value), c2.value), order, job) <==> first.id != second.id)
  {
    var stmt := UpdateOrder(order, Assign(job, Some(first.id)));
    ClaimIssues(db, now, first, order, job);
    ClaimIssues(db, now, second, order, job);
    ExecKeeps(db, stmt);
    ClaimOverwritesIff(db, now, first, order, job, db);
    hide Decide, Exec;
    ClaimOverwritesIff(db, now, second, order, job, After(db, stmt));
  }

  /**
   * The deadline is asked about by the handler alone. An item deletion decided in time and executed on
   * any tables whatever removes the item if it is still there, although by then the order may have
   * closed and no handler would decide it; and that is all it does.
   */
  lemma LateWriteReachesAClosedOrder(db: Db, decided: Time, who: Option<Principal>, order: Id, item: Id, db': Db)
    requires Decide(db, decided, who, DeleteItem(order, item)).Ok? && Integrity(db')
    ensures var stmt := Decide(db, decided, who, DeleteItem(order, item)).value;
            var done := After(db', stmt);
      && done.items == db'.items - {item}
      && done == db'.(items := done.items, snaps := done.snaps)
      && (forall s :: s in done.snaps <==> s in db'.snaps && db'.snaps[s].item != item)
      && (forall s | s in done.snaps :: done.snaps[s] == db'.snaps[s])
    ensures ItemInOrder(db', order, item) ==>
      forall late | late >= db'.orders[order].deadlineAt :: Decide(db', late, who, DeleteItem(order, item)) == Err(OrderClosed)
  {
    DeletionIssues(db, decided, who, order, item);
    DeletionDoes(db', item);
    LateDeletionIsRefused(db', who, order, item);
    hide Decide, After;
  }

  lemma DeletionIssues(db: Db, decided: Time, who: Option<Principal>, order: Id, item: Id)
    requires Decide(db, decided, who, DeleteItem(order, item)).Ok?
    ensures who.Some? && Decide(db, decided, who, DeleteItem(order, item)).value == DeleteOrderItem(item)
  {}

  lemma LateDeletionIsRefused(db: Db, who: Option<Principal>, order: Id, item: Id)
    ensures who.Some? && ItemInOrder(db, order, item) ==>
      forall late | late >= db.orders[order].deadlineAt :: Decide(db, late, who, DeleteItem(order, item)) == Err(OrderClosed)
  {}

  lemma DeletionDoes(db: Db, item: Id)
    requires Integrity(db)
    ensures var done := After(db, DeleteOrderItem(item));
      && done.items == db.items - {item}
      && done == db.(items := done.items, snaps := done.snaps)
      && (forall s :: s in done.snaps <==> s in db.snaps && db.snaps[s].item != item)
      && (forall s | s in done.snaps :: done.snaps[s] == db.snaps[s])
  {
    if item !in db.items { assert db.items - {item} == db.items; }
  }
}
