/** What every statement keeps, whoever issues it and whatever they read beforehand. */
module SqlInvariants {
  import opened Prelude
  import opened Schema
  import opened Sql

  // ----- deleting rows -----

  lemma RemoveItemsKeeps(db: Db, gone: set<Id>)
    ensures Integrity(db) ==> Integrity(RemoveItems(db, gone))
    ensures Consistent(db) ==> Consistent(RemoveItems(db, gone))
  {}

  lemma RemoveOrdersKeeps(db: Db, gone: set<Id>)
    ensures Integrity(db) ==> Integrity(RemoveOrders(db, gone))
    ensures Consistent(db) ==> Consistent(RemoveOrders(db, gone))
  {}

  lemma RemoveModsKeepsIntegrity(db: Db, gone: set<Id>)
    requires Integrity(db)
    ensures Integrity(RemoveMods(db, gone))
  {}

  /** No snapshot loses its modification if none of those removed was snapshotted. */
  lemma RemoveModsKeeps(db: Db, gone: set<Id>)
    requires Consistent(db)
    requires forall m | m in gone :: !Snapshotted(db, m)
    ensures RemoveMods(db, gone).snaps == db.snaps
    ensures Consistent(RemoveMods(db, gone))
  {
    forall s | s in db.snaps
      ensures Released(db.snaps[s].mod, gone) == db.snaps[s].mod
    {
      if db.snaps[s].mod.Some? && db.snaps[s].mod.value in gone {
        assert Snapshotted(db, db.snaps[s].mod.value);
      }
    }
    assert RemoveMods(db, gone).snaps == db.snaps;
    RemoveModsKeepsIntegrity(db, gone);
  }

  lemma RemoveDishesKeepsIntegrity(db: Db, gone: set<Id>)
    requires Integrity(db)
    requires forall d | d in gone :: !Ordered(db, d)
    ensures Integrity(RemoveDishes(db, gone))
  {
    RemoveModsKeepsIntegrity(db, ModsOf(db, gone));
    forall i | i in db.items
      ensures db.items[i].dish !in gone
    {
      assert Ordered(db, db.items[i].dish);
    }
  }

  /** A dish nobody ordered takes only modifications nobody chose. */
  lemma RemoveDishesKeeps(db: Db, gone: set<Id>)
    requires Consistent(db)
    requires forall d | d in gone :: !Ordered(db, d)
    ensures RemoveDishes(db, gone).snaps == db.snaps
    ensures Consistent(RemoveDishes(db, gone))
  {
    forall m | m in ModsOf(db, gone)
      ensures !Snapshotted(db, m)
    {}
    RemoveModsKeeps(db, ModsOf(db, gone));
    RemoveDishesKeepsIntegrity(db, gone);
  }

  lemma RemoveCategoriesKeeps(db: Db, gone: set<Id>)
    ensures Integrity(db) ==> Integrity(RemoveCategories(db, gone))
    ensures Consistent(db) ==> Consistent(RemoveCategories(db, gone))
  {}

  lemma RemoveImagesKeeps(db: Db, gone: set<Id>)
    ensures Integrity(db) ==> Integrity(RemoveImages(db, gone))
    ensures Consistent(db) ==> Consistent(RemoveImages(db, gone))
  {}

  lemma EmptiedRestaurantsKeepIntegrity(db: Db, gone: set<Id>)
    requires Integrity(db)
    requires forall o | o in db.orders :: db.orders[o].restaurant !in gone
    requires forall c | c in db.categories :: db.categories[c].restaurant !in gone
    requires forall d | d in db.dishes :: db.dishes[d].restaurant !in gone
    ensures Integrity(db.(restaurants := db.restaurants - gone))
  {}

  lemma MenuIsGone(db: Db, gone: set<Id>)
    ensures var db1 := RemoveDishes(db, DishesOf(db, gone));
            var db2 := RemoveCategories(db1, CategoriesOf(db1, gone));
            && db2.orders == db.orders
            && (forall c | c in db2.categories :: db2.categories[c].restaurant !in gone)
            && (forall d | d in db2.dishes :: db2.dishes[d].restaurant !in gone)
  {}

  /** A restaurant may go once nothing is ordered there; its menu goes with it. */
  lemma RemoveRestaurantsKeepsIntegrity(db: Db, gone: set<Id>)
    requires Integrity(db)
    requires forall o | o in db.orders :: db.orders[o].restaurant !in gone
    requires forall i | i in db.items :: db.items[i].dish !in DishesOf(db, gone)
    ensures Integrity(RemoveRestaurants(db, gone))
  {
    hide Integrity, RemoveDishes, RemoveCategories;
    var db1 := RemoveDishes(db, DishesOf(db, gone));
    RemoveDishesKeepsIntegrity(db, DishesOf(db, gone));
    RemoveCategoriesKeeps(db1, CategoriesOf(db1, gone));
    MenuIsGone(db, gone);
    EmptiedRestaurantsKeepIntegrity(RemoveCategories(db1, CategoriesOf(db1, gone)), gone);
  }

  lemma RemoveRestaurantsKeeps(db: Db, gone: set<Id>)
    requires Consistent(db)
    requires forall o | o in db.orders :: db.orders[o].restaurant !in gone
    ensures forall i | i in db.items :: db.items[i].dish !in DishesOf(db, gone)
    ensures RemoveRestaurants(db, gone).snaps == db.snaps
    ensures Consistent(RemoveRestaurants(db, gone))
  {
    var db1 := RemoveDishes(db, DishesOf(db, gone));
    RemoveDishesKeeps(db, DishesOf(db, gone));
    RemoveCategoriesKeeps(db1, CategoriesOf(db1, gone));
    RemoveRestaurantsKeepsIntegrity(db, gone);
  }

  // ----- the statements -----

  /** What a sweep selects, nothing refers to that its removal would leave dangling. */
  lemma SelectedUnreferenced(db: Db, sweep: Sweep, now: Time, retention: Time)
    ensures var gone := Doomed(db, sweep, now, retention);
      match sweep
      case OldModifications => forall m | m in gone :: !Snapshotted(db, m)
      case OldDishes => forall d | d in gone :: !Ordered(db, d)
      case OldRestaurants =>
        && (forall o | o in db.orders :: db.orders[o].restaurant !in gone)
        && (forall i | i in db.items :: db.items[i].dish !in DishesOf(db, gone))
      case _ => true
  {
    hide Snapshotted, Ordered, HasCategories;
    if sweep == OldRestaurants {
      var gone := Doomed(db, sweep, now, retention);
      forall o | o in db.orders ensures db.orders[o].restaurant !in gone { assert HasOrders(db, db.orders[o].restaurant); }
      forall d | d in db.dishes ensures db.dishes[d].restaurant !in gone { assert HasDishes(db, db.dishes[d].restaurant); }
    }
  }

  lemma SweepKeepsIntegrity(db: Db, sweep: Sweep, now: Time, retention: Time)
    requires Integrity(db)
    ensures Integrity(Swept(db, sweep, now, retention))
  {
    SelectedUnreferenced(db, sweep, now, retention);
    var gone := Doomed(db, sweep, now, retention);
    if sweep == OldSessions { SessionsMayGo(db, gone); }
    if sweep == OldTokens { TokensMayGo(db, gone); }
    hide Integrity, Doomed, Snapshotted, Ordered, DishesOf, RemoveOrders, RemoveMods, RemoveDishes, RemoveCategories,
      RemoveRestaurants, RemoveImages;
    match sweep
    case OldOrders => RemoveOrdersKeeps(db, gone);
    case OldModifications => RemoveModsKeepsIntegrity(db, gone);
    case OldDishes => RemoveDishesKeepsIntegrity(db, gone);
    case OldCategories => RemoveCategoriesKeeps(db, gone);
    case OldRestaurants => RemoveRestaurantsKeepsIntegrity(db, gone);
    case OldImages => RemoveImagesKeeps(db, gone);
    case _ =>
  }

  lemma SessionsMayGo(db: Db, gone: set<Id>)
    requires Integrity(db)
    ensures Integrity(db.(sessions := db.sessions - gone))
    ensures Consistent(db) ==> Consistent(db.(sessions := db.sessions - gone))
  {}

  lemma TokensMayGo(db: Db, gone: set<Id>)
    requires Integrity(db)
    ensures Integrity(db.(tokens := db.tokens - gone))
    ensures Consistent(db) ==> Consistent(db.(tokens := db.tokens - gone))
  {}

  lemma SweepKeepsConsistent(db: Db, sweep: Sweep, now: Time, retention: Time)
    requires Consistent(db)
    ensures Consistent(Swept(db, sweep, now, retention))
  {
    SelectedUnreferenced(db, sweep, now, retention);
    var gone := Doomed(db, sweep, now, retention);
    if sweep == OldSessions { SessionsMayGo(db, gone); }
    if sweep == OldTokens { TokensMayGo(db, gone); }
    hide Consistent, Doomed, Snapshotted, Ordered, DishesOf, RemoveOrders, RemoveMods, RemoveDishes, RemoveCategories,
      RemoveRestaurants, RemoveImages;
    match sweep
    case OldOrders => RemoveOrdersKeeps(db, gone);
    case OldModifications => RemoveModsKeeps(db, gone);
    case OldDishes => RemoveDishesKeeps(db, gone);
    case OldCategories => RemoveCategoriesKeeps(db, gone);
    case OldRestaurants => RemoveRestaurantsKeeps(db, gone);
    case OldImages => RemoveImagesKeeps(db, gone);
    case _ =>
  }

  // ----- writing one table -----

  predicate OrderRefs(db: Db, o: Order) {
    && o.creator in db.users && o.restaurant in db.restaurants
    && RefersTo(o.collector, db.users) && RefersTo(o.pickup, db.users)
    && o.deadlineAt < o.fulfilmentAt
  }

  lemma WriteOrdersKeepsIntegrity(db: Db, orders: map<Id, Order>)
    requires Integrity(db)
    requires db.orders.Keys <= orders.Keys
    requires forall o | o in orders :: OrderRefs(db, orders[o])
    ensures Integrity(db.(orders := orders))
  {}

  lemma WriteOrdersKeepsPlaces(db: Db, orders: map<Id, Order>)
    requires AtItsRestaurant(db) && OfItsDish(db)
    requires db.orders.Keys <= orders.Keys
    requires forall o | o in db.orders && HasItems(db, o) :: orders[o].restaurant == db.orders[o].restaurant
    ensures AtItsRestaurant(db.(orders := orders)) && OfItsDish(db.(orders := orders))
  {
    forall i | i in db.items
      ensures orders[db.items[i].order].restaurant == db.orders[db.items[i].order].restaurant
    {
      assert HasItems(db, db.items[i].order);
    }
  }

  /** Orders may change anything but the restaurant of an order that holds items. */
  lemma WriteOrdersKeeps(db: Db, orders: map<Id, Order>)
    requires Integrity(db)
    requires db.orders.Keys <= orders.Keys
    requires forall o | o in orders :: OrderRefs(db, orders[o])
    ensures Integrity(db.(orders := orders))
    ensures Consistent(db) && (forall o | o in db.orders && HasItems(db, o) :: orders[o].restaurant == db.orders[o].restaurant)
            ==> Consistent(db.(orders := orders))
  {
    hide Integrity, AtItsRestaurant, OfItsDish, OrderRefs;
    WriteOrdersKeepsIntegrity(db, orders);
    if Consistent(db) && forall o | o in db.orders && HasItems(db, o) :: orders[o].restaurant == db.orders[o].restaurant {
      WriteOrdersKeepsPlaces(db, orders);
    }
  }

  predicate ItemRefs(db: Db, i: OrderItem) {
    i.order in db.orders && i.user in db.users && i.dish in db.dishes && i.quantity >= 1
  }

  /** Items may come, but never change their order or dish. */
  lemma WriteItemsKeeps(db: Db, items: map<Id, OrderItem>)
    requires Integrity(db)
    requires db.items.Keys <= items.Keys
    requires forall i | i in items :: ItemRefs(db, items[i])
    ensures Integrity(db.(items := items))
    ensures && Consistent(db)
            && (forall i | i in db.items :: items[i].dish == db.items[i].dish)
            && (forall i | i in items :: db.dishes[items[i].dish].restaurant == db.orders[items[i].order].restaurant)
            ==> Consistent(db.(items := items))
  {}

  lemma WriteDishesKeeps(db: Db, dishes: map<Id, Dish>)
    requires Integrity(db)
    requires db.dishes.Keys <= dishes.Keys
    requires forall d | d in dishes :: DishRefs(db, dishes[d])
    ensures Integrity(db.(dishes := dishes))
    ensures Consistent(db) && (forall d | d in db.dishes :: dishes[d].restaurant == db.dishes[d].restaurant)
            ==> Consistent(db.(dishes := dishes))
  {}

  /** Snapshots may come if they are of items and modifications there are. */
  lemma WriteSnapsKeeps(db: Db, snaps: map<Id, Snapshot>)
    requires Integrity(db)
    requires forall s | s in snaps :: snaps[s].item in db.items && RefersTo(snaps[s].mod, db.mods)
    ensures Integrity(db.(snaps := snaps))
    ensures && Consistent(db)
            && (forall s | s in snaps :: snaps[s].mod.Some? && db.mods[snaps[s].mod.value].dish == db.items[snaps[s].item].dish)
            ==> Consistent(db.(snaps := snaps))
  {}

  lemma SnapRowsOk(db: Db)
    requires Integrity(db)
    ensures forall s | s in db.snaps :: db.snaps[s].item in db.items && RefersTo(db.snaps[s].mod, db.mods)
    ensures Consistent(db) ==> forall s | s in db.snaps ::
      db.snaps[s].mod.Some? && db.mods[db.snaps[s].mod.value].dish == db.items[db.snaps[s].item].dish
  {}

  lemma SnapshottingKeeps(db: Db, item: Id, dish: Id, chosen: seq<Id>, minted: map<Id, Id>)
    requires Snapshotting(db, item, dish, chosen, minted).Ok?
    requires item in db.items && db.items[item].dish == dish
    requires Integrity(db)
    ensures Integrity(Snapshotting(db, item, dish, chosen, minted).value)
    ensures Consistent(db) ==> Consistent(Snapshotting(db, item, dish, chosen, minted).value)
  {
    hide Integrity, Consistent;
    SnapRowsOk(db);
    if |chosen| != 0 {
      assert forall s | s in minted :: minted[s] in Selectable(db, dish, chosen);
      WriteSnapsKeeps(db, db.snaps + SnapshotRows(db, item, minted));
    }
  }

  lemma NewItemKeeps(db: Db, id: Id, order: Id, user: Id, dish: Id, quantity: int, note: string,
                     chosen: seq<Id>, served: bool, minted: map<Id, Id>)
    requires NewItem(db, id, order, user, dish, quantity, note, chosen, served, minted).Ok?
    requires Integrity(db)
    ensures Integrity(NewItem(db, id, order, user, dish, quantity, note, chosen, served, minted).value)
    ensures Consistent(db) ==> Consistent(NewItem(db, id, order, user, dish, quantity, note, chosen, served, minted).value)
  {
    var db1 := InsertItem(db, id, order, user, dish, quantity, note, db.dishes[dish].name, db.dishes[dish].price).value;
    NewRowKeeps(db, id, db1.items[id]);
    hide Integrity, Consistent, Snapshotting;
    SnapshottingKeeps(db1, id, dish, chosen, minted);
  }

  lemma NewRowKeeps(db: Db, id: Id, row: OrderItem)
    requires Integrity(db) && id !in db.items && ItemRefs(db, row)
    ensures Integrity(db.(items := db.items[id := row]))
    ensures Consistent(db) && db.dishes[row.dish].restaurant == db.orders[row.order].restaurant
            ==> Consistent(db.(items := db.items[id := row]))
  {
    ItemRowsOk(db);
    hide Integrity, Consistent;
    WriteItemsKeeps(db, db.items[id := row]);
  }

  lemma RemoveSnapsKeeps(db: Db, gone: set<Id>)
    requires Integrity(db)
    ensures Integrity(db.(snaps := db.snaps - gone))
    ensures Consistent(db) ==> Consistent(db.(snaps := db.snaps - gone))
  {}

  lemma ChangeItemKeeps(db: Db, id: Id, quantity: Option<int>, note: Option<string>,
                        chosen: Option<seq<Id>>, minted: map<Id, Id>)
    requires ChangeItem(db, id, quantity, note, chosen, minted).Ok?
    requires Integrity(db)
    ensures Integrity(ChangeItem(db, id, quantity, note, chosen, minted).value)
    ensures Consistent(db) ==> Consistent(ChangeItem(db, id, quantity, note, chosen, minted).value)
  {
    var was := db.items[id];
    var row := was.(quantity := Or(quantity, was.quantity), note := Or(note, was.note));
    var db1 := db.(items := db.items[id := row]);
    ChangedRowKeeps(db, id, row);
    hide Integrity, Consistent, Snapshotting, SnapsOf;
    if chosen.Some? {
      var db2 := db1.(snaps := db1.snaps - SnapsOf(db1, {id}));
      RemoveSnapsKeeps(db1, SnapsOf(db1, {id}));
      SnapshottingKeeps(db2, id, was.dish, chosen.value, minted);
    }
  }

  /** An item's row may change in anything but its order and dish. */
  lemma ChangedRowKeeps(db: Db, id: Id, row: OrderItem)
    requires Integrity(db) && id in db.items && ItemRefs(db, row)
    requires row.order == db.items[id].order && row.dish == db.items[id].dish
    ensures Integrity(db.(items := db.items[id := row]))
    ensures Consistent(db) ==> Consistent(db.(items := db.items[id := row]))
  {
    ItemRowsOk(db);
    hide Integrity, Consistent;
    WriteItemsKeeps(db, db.items[id := row]);
  }

  lemma OrderRowsOk(db: Db)
    requires Integrity(db)
    ensures forall o | o in db.orders :: OrderRefs(db, db.orders[o])
  {}

  lemma PatchedRefs(db: Db, o: Order, u: OrderUpdate)
    requires OrderRefs(db, o) && RefersTo(u.restaurant, db.restaurants) && NamesPeople(u, db.users)
    requires Patched(o, u, db.restaurants).deadlineAt < Patched(o, u, db.restaurants).fulfilmentAt
    ensures OrderRefs(db, Patched(o, u, db.restaurants))
    ensures u.restaurant.None? ==> Patched(o, u, db.restaurants).restaurant == o.restaurant
  {}

  /** An order that changes restaurant holds nothing, so nothing is left behind. */
  lemma ChangeOrderKeeps(db: Db, id: Id, u: OrderUpdate)
    requires ChangeOrder(db, id, u).Ok?
    requires Integrity(db)
    ensures Integrity(ChangeOrder(db, id, u).value)
    ensures Consistent(db) ==> Consistent(ChangeOrder(db, id, u).value)
  {
    OrderRowsOk(db);
    hide Integrity, Consistent;
    if u != NO_UPDATE {
      PatchedRefs(db, db.orders[id], u);
      WriteOrdersKeeps(db, db.orders[id := Patched(db.orders[id], u, db.restaurants)]);
    }
  }

  lemma ItemsPassedOnKeeps(db: Db, user: Id, now: Time)
    requires Integrity(db)
    ensures Integrity(ItemsPassedOn(db, user, now))
    ensures Consistent(db) ==> Consistent(ItemsPassedOn(db, user, now))
  {
    WriteItemsKeeps(db, ItemsPassedOn(db, user, now).items);
  }

  lemma OrdersPassedOnKeeps(db: Db, user: Id)
    requires Integrity(db)
    ensures Integrity(OrdersPassedOn(db, user))
    ensures Consistent(db) ==> Consistent(OrdersPassedOn(db, user))
  {
    WriteOrdersKeeps(db, OrdersPassedOn(db, user).orders);
  }

  predicate NamesUsers(o: Order, users: map<Id, User>) {
    o.creator in users && RefersTo(o.collector, users) && RefersTo(o.pickup, users)
  }

  /** A user nothing refers to can go, with the logins that are the user's own. */
  lemma ForgottenUserKeeps(db: Db, users: map<Id, User>, sessions: map<Id, Session>, tokens: map<Id, Token>)
    requires Integrity(db)
    requires PLACEHOLDER in users && !users[PLACEHOLDER].admin
    requires forall o | o in db.orders :: NamesUsers(db.orders[o], users)
    requires forall i | i in db.items :: db.items[i].user in users
    requires forall s | s in sessions :: sessions[s].user in users
    requires forall t | t in tokens :: tokens[t].user in users
    ensures Integrity(db.(users := users, sessions := sessions, tokens := tokens))
    ensures Consistent(db) ==> Consistent(db.(users := users, sessions := sessions, tokens := tokens))
  {}

  lemma ItemRowsOk(db: Db)
    requires Integrity(db)
    ensures forall i | i in db.items :: ItemRefs(db, db.items[i])
    ensures Consistent(db) ==>
      forall i | i in db.items :: db.dishes[db.items[i].dish].restaurant == db.orders[db.items[i].order].restaurant
  {}

  lemma LoginRowsOk(db: Db)
    requires Integrity(db)
    ensures PLACEHOLDER in db.users && !db.users[PLACEHOLDER].admin && LoginsOk(db)
  {}

  lemma HandedOverOrders(db: Db, user: Id)
    requires user != PLACEHOLDER && PLACEHOLDER in db.users
    requires forall o | o in db.orders :: OrderRefs(db, db.orders[o])
    ensures var after := RemoveUser(db, user);
            && after.orders.Keys == db.orders.Keys
            && (forall o | o in after.orders ::
                  && OrderRefs(db, after.orders[o]) && NamesUsers(after.orders[o], after.users)
                  && after.orders[o].restaurant == db.orders[o].restaurant)
  {}

  lemma HandedOverItems(db: Db, user: Id)
    requires user != PLACEHOLDER && PLACEHOLDER in db.users
    requires forall i | i in db.items :: ItemRefs(db, db.items[i])
    ensures var after := RemoveUser(db, user);
            && after.items.Keys == db.items.Keys
            && (forall i | i in after.items ::
                  && ItemRefs(db, after.items[i]) && after.items[i].user in after.users
                  && after.items[i].dish == db.items[i].dish && after.items[i].order == db.items[i].order)
  {}

  lemma RemoveUserKeeps(db: Db, user: Id)
    requires user != PLACEHOLDER && Integrity(db)
    ensures Integrity(RemoveUser(db, user))
    ensures Consistent(db) ==> Consistent(RemoveUser(db, user))
  {
    OrderRowsOk(db);
    ItemRowsOk(db);
    LoginRowsOk(db);
    HandedOverOrders(db, user);
    HandedOverItems(db, user);
    HandingOverKeeps(db, user);
    hide Integrity, Consistent, HandedOver, Released, OrderRefs, ItemRefs;
    var after := RemoveUser(db, user);
    ForgottenUserKeeps(db.(orders := after.orders, items := after.items), after.users, after.sessions, after.tokens);
  }

  lemma HandingOverKeeps(db: Db, user: Id)
    requires user != PLACEHOLDER && Integrity(db)
    ensures var after := RemoveUser(db, user);
            var db2 := db.(orders := after.orders, items := after.items);
            Integrity(db2) && (Consistent(db) ==> Consistent(db2))
  {
    OrderRowsOk(db);
    ItemRowsOk(db);
    LoginRowsOk(db);
    HandedOverOrders(db, user);
    HandedOverItems(db, user);
    hide Integrity, Consistent, HandedOver, Released, OrderRefs;
    var after := RemoveUser(db, user);
    var db1 := db.(orders := after.orders);
    WriteOrdersKeeps(db, after.orders);
    ItemRowsOk(db1);
    WriteItemsKeeps(db1, after.items);
  }

  lemma RemapAndDeleteKeeps(db: Db, user: Id, now: Time)
    requires RemapAndDelete(db, user, now).Ok?
    requires Integrity(db)
    ensures Integrity(RemapAndDelete(db, user, now).value)
    ensures Consistent(db) ==> Consistent(RemapAndDelete(db, user, now).value)
  {
    hide Integrity, Consistent, ItemsPassedOn, OrdersPassedOn, RemoveItems, RemoveUser, OpenItemsOf;
    var db1 := ItemsPassedOn(db, user, now);
    var db2 := RemoveItems(db1, OpenItemsOf(db1, user, now));
    ItemsPassedOnKeeps(db, user, now);
    RemoveItemsKeeps(db1, OpenItemsOf(db1, user, now));
    OrdersPassedOnKeeps(db2, user);
    RemoveUserKeeps(OrdersPassedOn(db2, user), user);
  }

  lemma DrawKeeps(db: Db, now: Time, locked: set<Id>, picks: map<Id, Id>)
    requires Draw(db, now, locked, picks).Ok?
    requires Integrity(db)
    ensures Integrity(Draw(db, now, locked, picks).value)
    ensures Consistent(db) ==> Consistent(Draw(db, now, locked, picks).value)
  {
    PicksAreUsers(db, Due(db, now, locked), picks);
    OrderRowsOk(db);
    hide Integrity, Consistent, LegalPicks, People;
    var orders := Draw(db, now, locked, picks).value.orders;
    forall o | o in orders
      ensures OrderRefs(db, orders[o]) && orders[o].restaurant == db.orders[o].restaurant
    {}
    WriteOrdersKeeps(db, orders);
  }

  lemma PicksAreUsers(db: Db, due: set<Id>, picks: map<Id, Id>)
    requires Integrity(db) && LegalPicks(db, due, picks)
    ensures forall o | o in picks :: picks[o] in db.users
  {
    forall o | o in picks
      ensures picks[o] in db.users
    {
      var i :| i in db.items && db.items[i].order == o && db.items[i].user == picks[o];
    }
  }

  lemma HardDeleteKeeps(db: Db, id: Id)
    requires HardDelete(db, id).Ok?
    requires Integrity(db)
    ensures Integrity(HardDelete(db, id).value)
    ensures Consistent(db) ==> Consistent(HardDelete(db, id).value)
  {
    var gone := set o | o in db.orders && db.orders[o].restaurant == id;
    var db1 := RemoveOrders(db, gone);
    RemoveOrdersKeeps(db, gone);
    RemoveRestaurantsKeepsIntegrity(db1, {id});
    if Consistent(db) { RemoveRestaurantsKeeps(db1, {id}); }
  }

  lemma UnfiledKeeps(db: Db, category: Id)
    requires Integrity(db)
    ensures Integrity(Unfiled(db, category))
    ensures Consistent(db) ==> Consistent(Unfiled(db, category))
  {
    WriteDishesKeeps(db, Unfiled(db, category).dishes);
  }

  lemma WriteRestaurantsKeeps(db: Db, restaurants: map<Id, Restaurant>)
    requires Integrity(db)
    requires db.restaurants.Keys <= restaurants.Keys
    requires forall r | r in restaurants :: RefersTo(restaurants[r].logo, db.images)
    ensures Integrity(db.(restaurants := restaurants))
    ensures Consistent(db) ==> Consistent(db.(restaurants := restaurants))
  {}

  lemma WriteCategoriesKeeps(db: Db, categories: map<Id, Category>)
    requires Integrity(db)
    requires db.categories.Keys <= categories.Keys
    requires forall c | c in categories :: categories[c].restaurant in db.restaurants
    requires forall c | c in db.categories :: categories[c].restaurant == db.categories[c].restaurant
    ensures Integrity(db.(categories := categories))
    ensures Consistent(db) ==> Consistent(db.(categories := categories))
  {}

  lemma WriteModsKeeps(db: Db, mods: map<Id, Modification>)
    requires Integrity(db)
    requires db.mods.Keys <= mods.Keys
    requires forall m | m in mods :: mods[m].dish in db.dishes
    requires forall m | m in db.mods :: mods[m].dish == db.mods[m].dish
    ensures Integrity(db.(mods := mods))
    ensures Consistent(db) ==> Consistent(db.(mods := mods))
  {}

  lemma NewUserKeeps(db: Db, id: Id)
    requires Integrity(db) && NewUser(db, id).Ok?
    ensures Integrity(NewUser(db, id).value)
    ensures Consistent(db) ==> Consistent(NewUser(db, id).value)
  {}

  lemma NewImageKeeps(db: Db, id: Id, now: Time)
    requires Integrity(db) && NewImage(db, id, now).Ok?
    ensures Integrity(NewImage(db, id, now).value)
    ensures Consistent(db) ==> Consistent(NewImage(db, id, now).value)
  {}

  lemma MenuRowsOk(db: Db)
    requires Integrity(db)
    ensures forall r | r in db.restaurants :: RefersTo(db.restaurants[r].logo, db.images)
    ensures forall d | d in db.dishes :: DishRefs(db, db.dishes[d])
    ensures forall c | c in db.categories :: db.categories[c].restaurant in db.restaurants
    ensures forall m | m in db.mods :: db.mods[m].dish in db.dishes
  {}

  lemma NewRestaurantKeeps(db: Db, id: Id, terms: Terms, logo: Option<Id>)
    requires Integrity(db) && NewRestaurant(db, id, terms, logo).Ok?
    ensures Integrity(NewRestaurant(db, id, terms, logo).value)
    ensures Consistent(db) ==> Consistent(NewRestaurant(db, id, terms, logo).value)
  {
    MenuRowsOk(db);
    hide Integrity, Consistent;
    WriteRestaurantsKeeps(db, NewRestaurant(db, id, terms, logo).value.restaurants);
  }

  lemma ChangeRestaurantKeeps(db: Db, id: Id, terms: Option<Terms>, logo: Option<Option<Id>>)
    requires Integrity(db) && ChangeRestaurant(db, id, terms, logo).Ok?
    ensures Integrity(ChangeRestaurant(db, id, terms, logo).value)
    ensures Consistent(db) ==> Consistent(ChangeRestaurant(db, id, terms, logo).value)
  {
    MenuRowsOk(db);
    hide Integrity, Consistent;
    WriteRestaurantsKeeps(db, ChangeRestaurant(db, id, terms, logo).value.restaurants);
  }

  lemma BuryRestaurantKeeps(db: Db, id: Id)
    requires Integrity(db) && BuryRestaurant(db, id).Ok?
    ensures Integrity(BuryRestaurant(db, id).value)
    ensures Consistent(db) ==> Consistent(BuryRestaurant(db, id).value)
  {
    MenuRowsOk(db);
    hide Integrity, Consistent, HasOrders;
    WriteRestaurantsKeeps(db, BuryRestaurant(db, id).value.restaurants);
  }

  lemma NewCategoryKeeps(db: Db, id: Id, at: Id, name: string)
    requires Integrity(db) && NewCategory(db, id, at, name).Ok?
    ensures Integrity(NewCategory(db, id, at, name).value)
    ensures Consistent(db) ==> Consistent(NewCategory(db, id, at, name).value)
  {
    MenuRowsOk(db);
    hide Integrity, Consistent;
    WriteCategoriesKeeps(db, NewCategory(db, id, at, name).value.categories);
  }

  lemma BuryCategoryKeeps(db: Db, id: Id)
    requires Integrity(db) && BuryCategory(db, id).Ok?
    ensures Integrity(BuryCategory(db, id).value)
    ensures Consistent(db) ==> Consistent(BuryCategory(db, id).value)
  {
    UnfiledKeeps(db, id);
    CategoriesUntouched(db, id);
    var db1 := Unfiled(db, id);
    MenuRowsOk(db1);
    hide Integrity, Consistent, Unfiled;
    WriteCategoriesKeeps(db1, db1.categories[id := db1.categories[id].(deleted := true)]);
  }

  lemma CategoriesUntouched(db: Db, category: Id)
    ensures Unfiled(db, category).categories == db.categories
  {}

  lemma NewDishKeeps(db: Db, id: Id, row: Dish)
    requires Integrity(db) && NewDish(db, id, row).Ok?
    ensures Integrity(NewDish(db, id, row).value)
    ensures Consistent(db) ==> Consistent(NewDish(db, id, row).value)
  {
    MenuRowsOk(db);
    hide Integrity, Consistent;
    WriteDishesKeeps(db, NewDish(db, id, row).value.dishes);
  }

  lemma ChangeDishKeeps(db: Db, id: Id, u: DishUpdate)
    requires Integrity(db) && ChangeDish(db, id, u).Ok?
    ensures Integrity(ChangeDish(db, id, u).value)
    ensures Consistent(db) ==> Consistent(ChangeDish(db, id, u).value)
  {
    MenuRowsOk(db);
    hide Integrity, Consistent, DishRefs;
    WriteDishesKeeps(db, ChangeDish(db, id, u).value.dishes);
  }

  lemma BuryDishKeeps(db: Db, id: Id)
    requires Integrity(db) && BuryDish(db, id).Ok?
    ensures Integrity(BuryDish(db, id).value)
    ensures Consistent(db) ==> Consistent(BuryDish(db, id).value)
  {
    MenuRowsOk(db);
    hide Integrity, Consistent;
    WriteDishesKeeps(db, BuryDish(db, id).value.dishes);
  }

  lemma NewModificationKeeps(db: Db, id: Id, dish: Id, name: string, delta: int)
    requires Integrity(db) && NewModification(db, id, dish, name, delta).Ok?
    ensures Integrity(NewModification(db, id, dish, name, delta).value)
    ensures Consistent(db) ==> Consistent(NewModification(db, id, dish, name, delta).value)
  {
    MenuRowsOk(db);
    hide Integrity, Consistent;
    WriteModsKeeps(db, NewModification(db, id, dish, name, delta).value.mods);
  }

  lemma ChangeModificationKeeps(db: Db, id: Id, name: Option<string>, delta: Option<int>)
    requires Integrity(db) && ChangeModification(db, id, name, delta).Ok?
    ensures Integrity(ChangeModification(db, id, name, delta).value)
    ensures Consistent(db) ==> Consistent(ChangeModification(db, id, name, delta).value)
  {
    MenuRowsOk(db);
    hide Integrity, Consistent;
    WriteModsKeeps(db, ChangeModification(db, id, name, delta).value.mods);
  }

  lemma BuryModificationKeeps(db: Db, id: Id)
    requires Integrity(db) && BuryModification(db, id).Ok?
    ensures Integrity(BuryModification(db, id).value)
    ensures Consistent(db) ==> Consistent(BuryModification(db, id).value)
  {
    MenuRowsOk(db);
    hide Integrity, Consistent;
    WriteModsKeeps(db, BuryModification(db, id).value.mods);
  }

  lemma InsertOrderKeeps(db: Db, id: Id, creator: Id, at: Id, fulfilment: Fulfilment, fulfilmentAt: Time,
                         deadlineAt: Time, collector: Option<Id>, pickup: Option<Id>)
    requires Integrity(db)
    requires InsertOrder(db, id, creator, at, fulfilment, fulfilmentAt, deadlineAt, collector, pickup).Ok?
    ensures var db' := InsertOrder(db, id, creator, at, fulfilment, fulfilmentAt, deadlineAt, collector, pickup).value;
            Integrity(db') && (Consistent(db) ==> Consistent(db'))
  {
    OrderRowsOk(db);
    hide Integrity, Consistent;
    WriteOrdersKeeps(db, InsertOrder(db, id, creator, at, fulfilment, fulfilmentAt, deadlineAt, collector, pickup).value.orders);
  }

  lemma TickedKeeps(db: Db, id: Id, paid: bool)
    requires Integrity(db) && id in db.items
    ensures Integrity(Ticked(db, id, paid))
    ensures Consistent(db) ==> Consistent(Ticked(db, id, paid))
  {
    WriteItemsKeeps(db, Ticked(db, id, paid).items);
  }

  lemma SweepKeeps(db: Db, sweep: Sweep, now: Time, retention: Time)
    requires Integrity(db)
    ensures Integrity(Swept(db, sweep, now, retention))
    ensures Consistent(db) ==> Consistent(Swept(db, sweep, now, retention))
  {
    SweepKeepsIntegrity(db, sweep, now, retention);
    hide Integrity, Swept;
    if Consistent(db) { SweepKeepsConsistent(db, sweep, now, retention); }
  }

  /** Restaurants, categories, dishes and modifications. */
  lemma MenuWriteKeeps(db: Db, stmt: Stmt)
    requires stmt.CreateRestaurant? || stmt.UpdateRestaurant? || stmt.SoftDeleteRestaurant?
          || stmt.CreateCategory? || stmt.SoftDeleteCategory?
          || stmt.CreateMenuItem? || stmt.UpdateMenuItem? || stmt.SoftDeleteMenuItem?
          || stmt.CreateModification? || stmt.UpdateModification? || stmt.SoftDeleteModification?
    requires Exec(db, stmt).Ok? && Integrity(db)
    ensures Integrity(Exec(db, stmt).value)
    ensures Consistent(db) ==> Consistent(Exec(db, stmt).value)
  {
    hide Integrity, Consistent, InsertOrder, ChangeOrder, RemoveOrders, RemoveItems, NewItem, ChangeItem,
      RemapAndDelete, Draw, Swept, HardDelete, Ticked, NewUser, NewImage, NewRestaurant, ChangeRestaurant,
      BuryRestaurant, NewCategory, BuryCategory, NewDish, ChangeDish, BuryDish, NewModification,
      ChangeModification, BuryModification, Unfiled;
    match stmt
    case CreateRestaurant(id, terms, logo) => NewRestaurantKeeps(db, id, terms, logo);
    case UpdateRestaurant(id, terms, logo) => ChangeRestaurantKeeps(db, id, terms, logo);
    case SoftDeleteRestaurant(id) => BuryRestaurantKeeps(db, id);
    case CreateCategory(id, at, name) => NewCategoryKeeps(db, id, at, name);
    case SoftDeleteCategory(id) => BuryCategoryKeeps(db, id);
    case CreateMenuItem(id, row) => NewDishKeeps(db, id, row);
    case UpdateMenuItem(id, u) => ChangeDishKeeps(db, id, u);
    case SoftDeleteMenuItem(id) => BuryDishKeeps(db, id);
    case CreateModification(id, dish, name, delta) => NewModificationKeeps(db, id, dish, name, delta);
    case UpdateModification(id, name, delta) => ChangeModificationKeeps(db, id, name, delta);
    case SoftDeleteModification(id) => BuryModificationKeeps(db, id);
  }

  /**
   * Every statement, with whatever arguments, keeps the constraints of the schema; and if every
   * item was a dish of its order's restaurant, with modifications of that dish, it still is.
   */
  lemma ExecKeeps(db: Db, stmt: Stmt)
    requires Integrity(db)
    ensures Integrity(After(db, stmt))
    ensures Consistent(db) ==> Consistent(After(db, stmt))
  {
    hide Integrity, Consistent, InsertOrder, ChangeOrder, RemoveOrders, RemoveItems, NewItem, ChangeItem,
      RemapAndDelete, Draw, Swept, HardDelete, Ticked, NewUser, NewImage, NewRestaurant, ChangeRestaurant,
      BuryRestaurant, NewCategory, BuryCategory, NewDish, ChangeDish, BuryDish, NewModification,
      ChangeModification, BuryModification, Unfiled;
    if Exec(db, stmt).Err? {
      if stmt.SoftDeleteCategory? { UnfiledKeeps(db, stmt.id); }
    } else {
      match stmt
      case Nothing =>
      case CreateOrder(id, creator, at, f, fAt, dAt, c, p) => InsertOrderKeeps(db, id, creator, at, f, fAt, dAt, c, p);
      case UpdateOrder(id, u) => ChangeOrderKeeps(db, id, u);
      case DeleteOrder(id) => RemoveOrdersKeeps(db, {id});
      case AddOrderItem(id, o, user, d, q, note, chosen, served, minted) =>
        NewItemKeeps(db, id, o, user, d, q, note, chosen, served, minted);
      case UpdateOrderItem(id, q, note, chosen, minted) => ChangeItemKeeps(db, id, q, note, chosen, minted);
      case DeleteOrderItem(id) => RemoveItemsKeeps(db, {id});
      case SetOrderItemPaid(id, paid) => TickedKeeps(db, id, paid);
      case DeleteAccount(user, now) => RemapAndDeleteKeeps(db, user, now);
      case DrawJobs(now, locked, picks) => DrawKeeps(db, now, locked, picks);
      case Clean(sweep, now, retention) => SweepKeeps(db, sweep, now, retention);
      case HardDeleteRestaurant(id) => HardDeleteKeeps(db, id);
      case CreateUser(id) => NewUserKeeps(db, id);
      case CreateImage(id, now) => NewImageKeeps(db, id, now);
      case _ => MenuWriteKeeps(db, stmt);
    }
  }
}
