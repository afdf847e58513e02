/** What one statement leaves alone: the contents of an order it does not write to. */
module Sparing {
  import opened Prelude
  import opened Schema
  import opened Sql
  import opened SqlInvariants

  predicate Owns(db: Db, id: Id, i: Id) {
    i in db.items && db.items[i].order == id
  }

  predicate Carries(db: Db, id: Id, s: Id) {
    s in db.snaps && Owns(db, id, db.snaps[s].item)
  }

  predicate SameTerms(o: Order, o': Order) {
    o'.restaurant == o.restaurant && o'.fulfilment == o.fulfilment && o'.fulfilmentAt == o.fulfilmentAt
    && o'.deadlineAt == o.deadlineAt && o'.terms == o.terms
  }

  /** All of an item but whose it is and whether it is paid. */
  predicate SameLine(i: OrderItem, i': OrderItem) {
    i' == i.(user := i'.user, paid := i'.paid)
  }

  ghost predicate SameContents(db: Db, db': Db, id: Id) {
    && id in db.orders && id in db'.orders
    && SameTerms(db.orders[id], db'.orders[id])
    && (forall i :: Owns(db, id, i) <==> Owns(db', id, i))
    && (forall i | Owns(db, id, i) :: SameLine(db.items[i], db'.items[i]))
    && (forall s :: Carries(db, id, s) <==> Carries(db', id, s))
    && (forall s | Carries(db, id, s) :: db'.snaps[s] == db.snaps[s])
  }

  lemma SameDeadline(db: Db, db': Db, id: Id)
    requires SameContents(db, db', id)
    ensures id in db.orders && id in db'.orders && db'.orders[id].deadlineAt == db.orders[id].deadlineAt
  {}

  lemma SameContentsTransitive(db: Db, db': Db, db'': Db, id: Id)
    requires SameContents(db, db', id) && SameContents(db', db'', id)
    ensures SameContents(db, db'', id)
  {
    forall i | Owns(db, id, i)
      ensures SameLine(db.items[i], db''.items[i])
    {
      assert Owns(db', id, i);
    }
    forall s | Carries(db, id, s)
      ensures db''.snaps[s] == db.snaps[s]
    {
      assert Carries(db', id, s);
    }
  }

  /** The statements that can reach what an order holds, and miss this one. */
  predicate Spares(db: Db, stmt: Stmt, id: Id)
    requires id in db.orders
  {
    match stmt
    case UpdateOrder(o, _) => o != id
    case AddOrderItem(_, o, _, _, _, _, _, _, _) => o != id
    case UpdateOrderItem(i, _, _, _, _) => !Owns(db, id, i)
    case DeleteOrderItem(i) => !Owns(db, id, i)
    case DeleteAccount(_, now) => !Active(db.orders[id], now)
    case _ => true
  }

  // ----- one statement that spares the order -----

  lemma RemoveItemsSpares(db: Db, gone: set<Id>, id: Id)
    requires id in db.orders && forall i | i in gone :: !Owns(db, id, i)
    ensures SameContents(db, RemoveItems(db, gone), id)
    ensures forall i | Owns(db, id, i) :: RemoveItems(db, gone).items[i] == db.items[i]
  {}

  lemma RemoveOrdersSpares(db: Db, gone: set<Id>, id: Id)
    requires id in db.orders && id !in gone
    ensures SameContents(db, RemoveOrders(db, gone), id)
    ensures forall i | Owns(db, id, i) :: RemoveOrders(db, gone).items[i] == db.items[i]
  {}

  /** Menus may change under an order as long as its snapshots are not touched. */
  lemma SameTablesSpare(db: Db, db': Db, id: Id)
    requires id in db.orders
    requires db'.orders == db.orders && db'.items == db.items && db'.snaps == db.snaps
    ensures SameContents(db, db', id)
  {}

  /** The rows of every item but one are as they were, and so are their snapshots. */
  ghost predicate OnlyTouches(db: Db, db': Db, item: Id) {
    && db'.orders == db.orders
    && (forall i | i != item :: i in db.items <==> i in db'.items)
    && (forall i | i != item && i in db.items :: db'.items[i] == db.items[i])
    && (forall s | s in db.snaps && db.snaps[s].item != item :: s in db'.snaps && db'.snaps[s] == db.snaps[s])
    && (forall s | s in db'.snaps && db'.snaps[s].item != item :: s in db.snaps)
    && (forall s | s in db'.snaps && s in db.snaps && db.snaps[s].item == item :: db'.snaps[s].item == item)
  }

  lemma OnlyTouchesSpares(db: Db, db': Db, item: Id, id: Id)
    requires id in db.orders && OnlyTouches(db, db', item)
    requires !Owns(db, id, item) && !Owns(db', id, item)
    ensures SameContents(db, db', id)
    ensures forall i | Owns(db, id, i) :: db'.items[i] == db.items[i]
  {}

  lemma SnapshottingTouches(db: Db, item: Id, dish: Id, chosen: seq<Id>, minted: map<Id, Id>)
    requires Snapshotting(db, item, dish, chosen, minted).Ok?
    ensures OnlyTouches(db, Snapshotting(db, item, dish, chosen, minted).value, item)
    ensures Snapshotting(db, item, dish, chosen, minted).value.items == db.items
  {}

  lemma NewItemSpares(db: Db, stmt: Stmt, id: Id)
    requires Consistent(db) && id in db.orders
    requires stmt.AddOrderItem? && stmt.order != id && Exec(db, stmt).Ok?
    ensures SameContents(db, After(db, stmt), id)
    ensures forall i | Owns(db, id, i) :: After(db, stmt).items[i] == db.items[i]
    ensures After(db, stmt).orders == db.orders
  {
    hide Integrity, Consistent, Snapshotting, Orderable;
    var dish := db.dishes[stmt.dish];
    var db1 := InsertItem(db, stmt.id, stmt.order, stmt.user, stmt.dish, stmt.quantity, stmt.note, dish.name, dish.price).value;
    SnapshottingTouches(db1, stmt.id, stmt.dish, stmt.chosen, stmt.minted);
    OnlyTouchesSpares(db, After(db, stmt), stmt.id, id);
  }

  lemma ChangeItemSpares(db: Db, stmt: Stmt, id: Id)
    requires Consistent(db) && id in db.orders
    requires stmt.UpdateOrderItem? && !Owns(db, id, stmt.id) && Exec(db, stmt).Ok?
    ensures SameContents(db, After(db, stmt), id)
    ensures forall i | Owns(db, id, i) :: After(db, stmt).items[i] == db.items[i]
    ensures After(db, stmt).orders == db.orders
  {
    hide Integrity, Consistent, Snapshotting;
    var was := db.items[stmt.id];
    var row := was.(quantity := Or(stmt.newQuantity, was.quantity), note := Or(stmt.newNote, was.note));
    var db1 := db.(items := db.items[stmt.id := row]);
    if stmt.newChosen.Some? {
      var db2 := db1.(snaps := db1.snaps - SnapsOf(db1, {stmt.id}));
      assert OnlyTouches(db, db2, stmt.id);
      SnapshottingTouches(db2, stmt.id, was.dish, stmt.newChosen.value, stmt.minted);
    }
    OnlyTouchesSpares(db, After(db, stmt), stmt.id, id);
  }

  lemma ItemsPassedOnSpares(db: Db, user: Id, now: Time, id: Id)
    requires id in db.orders
    ensures SameContents(db, ItemsPassedOn(db, user, now), id)
    ensures ItemsPassedOn(db, user, now).orders == db.orders
  {}

  lemma OpenItemsAreOthers(db: Db, user: Id, now: Time, id: Id)
    requires id in db.orders && !Active(db.orders[id], now)
    ensures forall i | i in OpenItemsOf(db, user, now) :: !Owns(db, id, i)
  {}

  lemma OrdersPassedOnSpares(db: Db, user: Id, id: Id)
    requires id in db.orders
    ensures SameContents(db, OrdersPassedOn(db, user), id)
  {}

  lemma RemoveUserSpares(db: Db, user: Id, id: Id)
    requires id in db.orders
    ensures SameContents(db, RemoveUser(db, user), id)
  {}

  /** An account leaves a closed order as it was, but for whose it and its items are. */
  lemma DeletionSpares(db: Db, user: Id, now: Time, id: Id)
    requires id in db.orders && !Active(db.orders[id], now)
    requires RemapAndDelete(db, user, now).Ok?
    ensures SameContents(db, RemapAndDelete(db, user, now).value, id)
  {
    hide ItemsPassedOn, OpenItemsOf, RemoveItems, OrdersPassedOn, RemoveUser;
    var db1 := ItemsPassedOn(db, user, now);
    var gone := OpenItemsOf(db1, user, now);
    var db2 := RemoveItems(db1, gone);
    var db3 := OrdersPassedOn(db2, user);
    var db4 := RemoveUser(db3, user);
    assert RemapAndDelete(db, user, now).value == db4;
    hide RemapAndDelete;
    ItemsPassedOnSpares(db, user, now, id);
    OpenItemsAreOthers(db1, user, now, id);
    RemoveItemsSpares(db1, gone, id);
    SameDeadline(db1, db2, id);
    OrdersPassedOnSpares(db2, user, id);
    SameDeadline(db2, db3, id);
    RemoveUserSpares(db3, user, id);
    hide SameContents;
    SameContentsTransitive(db, db1, db2, id);
    SameContentsTransitive(db, db2, db3, id);
    SameContentsTransitive(db, db3, db4, id);
  }

  lemma DrawSpares(db: Db, now: Time, locked: set<Id>, picks: map<Id, Id>, id: Id)
    requires id in db.orders && Draw(db, now, locked, picks).Ok?
    ensures SameContents(db, Draw(db, now, locked, picks).value, id)
    ensures Draw(db, now, locked, picks).value.items == db.items
  {}

  /** Only the first sweep writes an order table. */
  lemma SweepKeepsTables(db: Db, sweep: Sweep, now: Time, retention: Time)
    requires Consistent(db)
    ensures sweep != OldOrders ==>
      && Swept(db, sweep, now, retention).orders == db.orders
      && Swept(db, sweep, now, retention).items == db.items
      && Swept(db, sweep, now, retention).snaps == db.snaps
  {
    var gone := Doomed(db, sweep, now, retention);
    match sweep
    case OldModifications => RemoveModsKeeps(db, gone);
    case OldDishes => RemoveDishesKeeps(db, gone);
    case OldRestaurants => RemoveRestaurantsKeeps(db, gone);
    case _ =>
  }

  /** A sweep removes an order whole or not at all. */
  lemma SweepSpares(db: Db, sweep: Sweep, now: Time, retention: Time, id: Id)
    requires Consistent(db) && id in db.orders && id in Swept(db, sweep, now, retention).orders
    ensures SameContents(db, Swept(db, sweep, now, retention), id)
    ensures Swept(db, sweep, now, retention).orders[id] == db.orders[id]
    ensures forall i | Owns(db, id, i) :: Swept(db, sweep, now, retention).items[i] == db.items[i]
  {
    SweepKeepsTables(db, sweep, now, retention);
    hide Consistent, Doomed;
    if sweep == OldOrders {
      RemoveOrdersSpares(db, Doomed(db, sweep, now, retention), id);
    } else {
      hide Swept;
      SameTablesSpare(db, Swept(db, sweep, now, retention), id);
    }
  }

  lemma HardDeleteSpares(db: Db, restaurant: Id, id: Id)
    requires Consistent(db) && id in db.orders && HardDelete(db, restaurant).Ok?
    requires id in HardDelete(db, restaurant).value.orders
    ensures SameContents(db, HardDelete(db, restaurant).value, id)
    ensures HardDelete(db, restaurant).value.orders[id] == db.orders[id]
    ensures forall i | Owns(db, id, i) :: HardDelete(db, restaurant).value.items[i] == db.items[i]
  {
    var gone := set o | o in db.orders && db.orders[o].restaurant == restaurant;
    var db1 := RemoveOrders(db, gone);
    RemoveOrdersKeeps(db, gone);
    RemoveRestaurantsKeeps(db1, {restaurant});
    RemoveOrdersSpares(db, gone, id);
    var db2 := RemoveRestaurants(db1, {restaurant});
    hide Consistent, RemoveOrders;
    SameTablesSpare(db1, db2, id);
    SameContentsTransitive(db, db1, db2, id);
  }

  /** Users, images and the menu, short of removing a restaurant with its orders. */
  predicate WritesMenu(stmt: Stmt) {
    || stmt.CreateUser? || stmt.CreateImage? || stmt.CreateRestaurant? || stmt.UpdateRestaurant?
    || stmt.SoftDeleteRestaurant? || stmt.CreateCategory? || stmt.SoftDeleteCategory?
    || stmt.CreateMenuItem? || stmt.UpdateMenuItem? || stmt.SoftDeleteMenuItem?
    || stmt.CreateModification? || stmt.UpdateModification? || stmt.SoftDeleteModification?
  }

  /** The three tables that hold orders. */
  predicate SameOrderTables(db: Db, db': Db) {
    db'.orders == db.orders && db'.items == db.items && db'.snaps == db.snaps
  }

  lemma RestaurantsKeepTables(db: Db, stmt: Stmt)
    requires stmt.CreateRestaurant? || stmt.UpdateRestaurant? || stmt.SoftDeleteRestaurant?
    ensures SameOrderTables(db, After(db, stmt))
  {
    hide InsertOrder, ChangeOrder, RemoveOrders, RemoveItems, NewItem, ChangeItem, RemapAndDelete, Draw, Swept,
      HardDelete, Ticked;
  }

  lemma BuryCategoryKeepsTables(db: Db, id: Id)
    ensures SameOrderTables(db, Unfiled(db, id))
    ensures BuryCategory(db, id).Ok? ==> SameOrderTables(db, BuryCategory(db, id).value)
  {}

  lemma CategoriesKeepTables(db: Db, stmt: Stmt)
    requires stmt.CreateCategory? || stmt.SoftDeleteCategory?
    ensures SameOrderTables(db, After(db, stmt))
  {
    if stmt.SoftDeleteCategory? {
      BuryCategoryKeepsTables(db, stmt.id);
      hide BuryCategory, Unfiled, SameOrderTables;
    }
  }

  lemma DishesKeepTables(db: Db, stmt: Stmt)
    requires stmt.CreateMenuItem? || stmt.UpdateMenuItem? || stmt.SoftDeleteMenuItem?
    ensures SameOrderTables(db, After(db, stmt))
  {
    hide InsertOrder, ChangeOrder, RemoveOrders, RemoveItems, NewItem, ChangeItem, RemapAndDelete, Draw, Swept,
      HardDelete, Ticked;
  }

  lemma ModificationsKeepTables(db: Db, stmt: Stmt)
    requires stmt.CreateModification? || stmt.UpdateModification? || stmt.SoftDeleteModification?
    ensures SameOrderTables(db, After(db, stmt))
  {
    hide InsertOrder, ChangeOrder, RemoveOrders, RemoveItems, NewItem, ChangeItem, RemapAndDelete, Draw, Swept,
      HardDelete, Ticked;
  }

  lemma MenuKeepsTables(db: Db, stmt: Stmt)
    requires WritesMenu(stmt)
    ensures SameOrderTables(db, After(db, stmt))
  {
    if stmt.CreateUser? || stmt.CreateImage? {
    } else {
      hide After, SameOrderTables;
      if stmt.CreateRestaurant? || stmt.UpdateRestaurant? || stmt.SoftDeleteRestaurant? {
        RestaurantsKeepTables(db, stmt);
      } else if stmt.CreateCategory? || stmt.SoftDeleteCategory? {
        CategoriesKeepTables(db, stmt);
      } else if stmt.CreateMenuItem? || stmt.UpdateMenuItem? || stmt.SoftDeleteMenuItem? {
        DishesKeepTables(db, stmt);
      } else {
        ModificationsKeepTables(db, stmt);
      }
    }
  }

  lemma MenuSpares(db: Db, stmt: Stmt, id: Id)
    requires id in db.orders
    requires WritesMenu(stmt)
    ensures After(db, stmt).orders == db.orders && After(db, stmt).items == db.items
    ensures SameContents(db, After(db, stmt), id)
  {
    MenuKeepsTables(db, stmt);
    hide After;
    SameTablesSpare(db, After(db, stmt), id);
  }

  /** What may still happen to a spared order's own rows. */
  ghost predicate RowsStand(db: Db, stmt: Stmt, db': Db, id: Id)
    requires id in db.orders
  {
    && SameContents(db, db', id)
    && (!stmt.DrawJobs? && !stmt.DeleteAccount? ==> db'.orders[id] == db.orders[id])
    && (!stmt.SetOrderItemPaid? && !stmt.DeleteAccount? ==>
          forall i | Owns(db, id, i) :: db'.items[i] == db.items[i])
  }

  lemma OrderStatementSpares(db: Db, stmt: Stmt, id: Id)
    requires Consistent(db) && id in db.orders && Spares(db, stmt, id)
    requires !WritesMenu(stmt) && Exec(db, stmt).Ok? && id in After(db, stmt).orders
    ensures RowsStand(db, stmt, After(db, stmt), id)
  {
    hide Consistent, InsertOrder, ChangeOrder, RemoveOrders, RemoveItems, NewItem, ChangeItem,
      RemapAndDelete, Draw, Swept, HardDelete, SameContents;
    match stmt
    case Nothing => SameTablesSpare(db, db, id);
    case CreateOrder(_, _, _, _, _, _, _, _) => InsertOrderSpares(db, stmt, id);
    case UpdateOrder(_, _) => ChangeOrderSpares(db, stmt, id);
    case DeleteOrder(o) =>
      RemoveOrdersGone(db, {o}, id);
      RemoveOrdersSpares(db, {o}, id);
    case AddOrderItem(_, _, _, _, _, _, _, _, _) => NewItemSpares(db, stmt, id);
    case UpdateOrderItem(_, _, _, _, _) => ChangeItemSpares(db, stmt, id);
    case DeleteOrderItem(i) =>
      RemoveItemsSpares(db, {i}, id);
      RemoveItemsOrders(db, {i});
    case SetOrderItemPaid(i, paid) => TickSpares(db, i, paid, id);
    case DeleteAccount(user, now) => DeletionSpares(db, user, now, id);
    case DrawJobs(now, locked, picks) => DrawSpares(db, now, locked, picks, id);
    case Clean(sweep, now, retention) => SweepSpares(db, sweep, now, retention, id);
    case HardDeleteRestaurant(r) => HardDeleteSpares(db, r, id);
  }

  /**
   * What a statement that spares an order may still do to it: the draw and an account deletion
   * touch its row, a tick and an account deletion its items' rows, and nothing else does.
   */
  lemma SparedStays(db: Db, stmt: Stmt, id: Id)
    requires Consistent(db) && id in db.orders && Spares(db, stmt, id)
    requires id in After(db, stmt).orders
    ensures RowsStand(db, stmt, After(db, stmt), id)
  {
    if WritesMenu(stmt) {
      MenuSpares(db, stmt, id);
    } else if Exec(db, stmt).Ok? {
      hide Exec;
      OrderStatementSpares(db, stmt, id);
    } else {
      hide Exec;
      SameTablesSpare(db, db, id);
    }
  }

  lemma RemoveOrdersGone(db: Db, gone: set<Id>, id: Id)
    ensures id in RemoveOrders(db, gone).orders <==> id in db.orders && id !in gone
    ensures id in RemoveOrders(db, gone).orders ==> RemoveOrders(db, gone).orders[id] == db.orders[id]
  {}

  lemma RemoveItemsOrders(db: Db, gone: set<Id>)
    ensures RemoveItems(db, gone).orders == db.orders
  {}

  lemma TickSpares(db: Db, item: Id, paid: bool, id: Id)
    requires id in db.orders && item in db.items
    ensures SameContents(db, Ticked(db, item, paid), id)
    ensures Ticked(db, item, paid).orders == db.orders
  {}

  lemma InsertOrderSpares(db: Db, stmt: Stmt, id: Id)
    requires id in db.orders && stmt.CreateOrder? && Exec(db, stmt).Ok?
    ensures SameContents(db, After(db, stmt), id)
    ensures After(db, stmt).orders[id] == db.orders[id] && After(db, stmt).items == db.items
  {}

  lemma ChangeOrderSpares(db: Db, stmt: Stmt, id: Id)
    requires id in db.orders && stmt.UpdateOrder? && stmt.id != id && Exec(db, stmt).Ok?
    ensures SameContents(db, After(db, stmt), id)
    ensures After(db, stmt).orders[id] == db.orders[id] && After(db, stmt).items == db.items
  {
    hide ChangeOrder;
    ChangeOrderKeepsTables(db, stmt.id, stmt.update);
    OtherRowsSpare(db, After(db, stmt), stmt.id, id);
  }

  lemma ChangeOrderKeepsTables(db: Db, id: Id, u: OrderUpdate)
    requires ChangeOrder(db, id, u).Ok?
    ensures ChangeOrder(db, id, u).value.items == db.items && ChangeOrder(db, id, u).value.snaps == db.snaps
    ensures SameOrdersBut(db, ChangeOrder(db, id, u).value, id)
  {
    if u != NO_UPDATE {
      var row := Patched(db.orders[id], u, db.restaurants);
      assert ChangeOrder(db, id, u).value == db.(orders := db.orders[id := row]);
    }
  }

  predicate SameOrdersBut(db: Db, db': Db, other: Id) {
    forall o | o in db.orders && o != other :: o in db'.orders && db'.orders[o] == db.orders[o]
  }

  lemma OtherRowsSpare(db: Db, db': Db, other: Id, id: Id)
    requires id in db.orders && id != other
    requires SameOrdersBut(db, db', other)
    requires db'.items == db.items && db'.snaps == db.snaps
    ensures SameContents(db, db', id) && db'.orders[id] == db.orders[id]
  {}

  // ----- totals -----

  ghost function DeltaOf(db: Db): Id -> int {
    s => if s in db.snaps then db.snaps[s].delta else 0
  }

  /** OrderItem.LineTotalCents: quantity times unit price plus every delta, all from the snapshots. */
  ghost function LineTotal(db: Db, i: Id): int
    requires i in db.items
  {
    db.items[i].quantity * (db.items[i].unitPrice + SumOver(SnapsOf(db, {i}), DeltaOf(db)))
  }

  ghost function LineOf(db: Db): Id -> int {
    i => if i in db.items then LineTotal(db, i) else 0
  }

  ghost function OrderTotal(db: Db, id: Id): int {
    SumOver(ItemsOf(db, {id}), LineOf(db))
  }

  /** The same contents cost the same. */
  lemma SameContentsSameTotal(db: Db, db': Db, id: Id)
    requires SameContents(db, db', id)
    ensures OrderTotal(db', id) == OrderTotal(db, id)
  {
    assert ItemsOf(db', {id}) == ItemsOf(db, {id}) by {
      forall i
        ensures i in ItemsOf(db', {id}) <==> i in ItemsOf(db, {id})
      {
        assert Owns(db, id, i) <==> Owns(db', id, i);
      }
    }
    forall i | i in ItemsOf(db, {id})
      ensures LineOf(db')(i) == LineOf(db)(i)
    {
      assert Owns(db, id, i);
      SameLineSameTotal(db, db', id, i);
    }
    SumCongruent(ItemsOf(db, {id}), LineOf(db), LineOf(db'));
  }

  lemma SameLineSameTotal(db: Db, db': Db, id: Id, i: Id)
    requires SameContents(db, db', id) && Owns(db, id, i)
    ensures i in db'.items && LineTotal(db', i) == LineTotal(db, i)
  {
    assert Owns(db', id, i);
    forall s
      ensures s in SnapsOf(db', {i}) <==> s in SnapsOf(db, {i})
    {
      assert Carries(db, id, s) <==> Carries(db', id, s);
    }
    assert SnapsOf(db', {i}) == SnapsOf(db, {i});
    forall s | s in SnapsOf(db, {i})
      ensures DeltaOf(db)(s) == DeltaOf(db')(s)
    {
      assert Carries(db, id, s);
    }
    SumCongruent(SnapsOf(db, {i}), DeltaOf(db), DeltaOf(db'));
  }
}
