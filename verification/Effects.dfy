/**
 * What the statements come to for whoever issues them: what one undoes of another, what can no longer
 * happen afterwards, and what of an order's price they move.
 */
module Effects {
  import opened Prelude
  import opened Schema
  import opened Sql
  import opened SqlInvariants
  import opened Sparing
  import opened Interleaving

  // ----- orders -----

  /** A new order is empty and costs nothing; every other one is as it was. */
  lemma NewOrderIsEmpty(db: Db, stmt: Stmt)
    requires stmt.CreateOrder? && Integrity(db) && Exec(db, stmt).Ok?
    ensures var db' := Exec(db, stmt).value;
      && stmt.id !in db.orders && stmt.id in db'.orders && !HasItems(db', stmt.id) && OrderTotal(db', stmt.id) == 0
      && (forall o | o in db.orders ::
            o in db'.orders && db'.orders[o] == db.orders[o] && OrderTotal(db', o) == OrderTotal(db, o))
  {
    var db' := Exec(db, stmt).value;
    NewOrderRow(db, stmt);
    hide Exec, OrderTotal;
    NothingCosts(db', stmt.id);
    forall o | o in db.orders
      ensures o in db'.orders && db'.orders[o] == db.orders[o] && OrderTotal(db', o) == OrderTotal(db, o)
    {
      UnmovedTotal(db, db', o);
    }
  }

  lemma NewOrderRow(db: Db, stmt: Stmt)
    requires stmt.CreateOrder? && Integrity(db) && Exec(db, stmt).Ok?
    ensures var db' := Exec(db, stmt).value;
      && stmt.id !in db.orders && stmt.id in db'.orders && db' == db.(orders := db.orders[stmt.id := db'.orders[stmt.id]])
      && !HasItems(db', stmt.id)
      && stmt.at in db.restaurants && !db.restaurants[stmt.at].deleted
      && db'.orders[stmt.id] == Order(stmt.creator, stmt.at, stmt.fulfilment, stmt.fulfilmentAt, stmt.deadlineAt,
                                      stmt.collector, stmt.pickup, db.restaurants[stmt.at].terms, false, false, false)
  {
    hide ChangeOrder, RemoveOrders, RemoveItems, NewItem, ChangeItem, RemapAndDelete, Draw, Swept, HardDelete;
  }

  lemma NothingCosts(db: Db, order: Id)
    requires !HasItems(db, order)
    ensures OrderTotal(db, order) == 0
  {
    assert ItemsOf(db, {order}) == {};
  }

  /** The same items at the same snapshots cost the same. */
  lemma UnmovedTotal(db: Db, db': Db, order: Id)
    requires db'.items == db.items && db'.snaps == db.snaps
    ensures OrderTotal(db', order) == OrderTotal(db, order)
  {
    assert ItemsOf(db', {order}) == ItemsOf(db, {order});
    forall i | i in ItemsOf(db, {order})
      ensures LineOf(db)(i) == LineOf(db')(i)
    {
      UnmovedLine(db, db', i);
    }
    SumCongruent(ItemsOf(db, {order}), LineOf(db), LineOf(db'));
  }

  /** What a line costs depends on its item's row and its snapshots. */
  lemma UnmovedLine(db: Db, db': Db, i: Id)
    requires i in db.items && i in db'.items
    requires db'.items[i].quantity == db.items[i].quantity && db'.items[i].unitPrice == db.items[i].unitPrice
    requires SnapsOf(db', {i}) == SnapsOf(db, {i})
    requires forall s | s in SnapsOf(db, {i}) :: db'.snaps[s].delta == db.snaps[s].delta
    ensures LineTotal(db', i) == LineTotal(db, i)
  {
    SumCongruent(SnapsOf(db, {i}), DeltaOf(db), DeltaOf(db'));
  }

  /** Creating an order and deleting it leaves no trace. */
  lemma DeletingUndoesCreating(db: Db, stmt: Stmt)
    requires stmt.CreateOrder? && Integrity(db) && Exec(db, stmt).Ok?
    ensures Exec(Exec(db, stmt).value, DeleteOrder(stmt.id)) == Ok(db)
  {
    var db1 := Exec(db, stmt).value;
    NewOrderRow(db, stmt);
    hide InsertOrder, RemoveOrders, RemoveItems, Integrity;
    assert Exec(db1, DeleteOrder(stmt.id)) == Ok(RemoveOrders(db1, {stmt.id}));
    EmptyOrderRemoved(db, db1, stmt.id);
  }

  lemma EmptyOrderRemoved(db: Db, db1: Db, id: Id)
    requires id !in db.orders && id in db1.orders && db1 == db.(orders := db.orders[id := db1.orders[id]])
    requires !HasItems(db1, id)
    ensures RemoveOrders(db1, {id}) == db
  {
    assert ItemsOf(db1, {id}) == {};
    assert SnapsOf(db1, {}) == {};
    assert db1.items - {} == db.items && db1.snaps - {} == db.snaps && db1.orders - {id} == db.orders;
  }

  /** A deleted order takes its items and their snapshots along, nothing else, and is gone for a second try. */
  lemma DeletedOrderIsGone(db: Db, id: Id)
    requires Consistent(db) && id in db.orders
    ensures Exec(db, DeleteOrder(id)).Ok?
    ensures var db' := Exec(db, DeleteOrder(id)).value;
      && id !in db'.orders && !HasItems(db', id)
      && (forall s | s in db'.snaps :: db'.snaps[s].item in db'.items && db'.items[db'.snaps[s].item].order != id)
      && Exec(db', DeleteOrder(id)) == Err(NotFound)
      && db' == db.(orders := db.orders - {id}, items := db'.items, snaps := db'.snaps)
    ensures forall o | o in db.orders && o != id ::
      SameContents(db, Exec(db, DeleteOrder(id)).value, o) && OrderTotal(Exec(db, DeleteOrder(id)).value, o) == OrderTotal(db, o)
  {
    var db' := RemoveOrders(db, {id});
    assert Exec(db, DeleteOrder(id)) == Ok(db') && Exec(db', DeleteOrder(id)) == Err(NotFound);
    hide Exec;
    RemovedRows(db, id);
    hide RemoveOrders, OrderTotal, SameContents, Consistent;
    forall o | o in db.orders && o != id
      ensures SameContents(db, db', o) && OrderTotal(db', o) == OrderTotal(db, o)
    {
      RemoveOrdersSpares(db, {id}, o);
      SameContentsSameTotal(db, db', o);
    }
  }

  lemma RemovedRows(db: Db, id: Id)
    requires Integrity(db)
    ensures var db' := RemoveOrders(db, {id});
      && id !in db'.orders && !HasItems(db', id)
      && (forall s | s in db'.snaps :: db'.snaps[s].item in db'.items && db'.items[db'.snaps[s].item].order != id)
      && db' == db.(orders := db.orders - {id}, items := db'.items, snaps := db'.snaps)
  {}

  // ----- items -----

  /** Nothing but one item came, with snapshots of its own. */
  ghost predicate ItemCame(db: Db, db': Db, id: Id, row: OrderItem) {
    && id !in db.items && db'.items == db.items[id := row]
    && db' == db.(items := db'.items, snaps := db'.snaps)
    && (forall s | s in db.snaps :: s in db'.snaps && db'.snaps[s] == db.snaps[s])
    && (forall s | s in db'.snaps && s !in db.snaps :: db'.snaps[s].item == id)
  }

  /** A snapshot as the menu has it now, of a living modification of the dish that was chosen. */
  predicate TakenFrom(db: Db, snap: Snapshot, dish: Id, chosen: seq<Id>) {
    && snap.mod.Some? && snap.mod.value in chosen && snap.mod.value in db.mods
    && db.mods[snap.mod.value] == Modification(dish, snap.name, snap.delta, false)
  }

  lemma SnapshotsCame(db: Db, item: Id, dish: Id, chosen: seq<Id>, minted: map<Id, Id>)
    requires Snapshotting(db, item, dish, chosen, minted).Ok?
    ensures var db' := Snapshotting(db, item, dish, chosen, minted).value;
      && db' == db.(snaps := db'.snaps)
      && (forall s | s in db.snaps :: s in db'.snaps && db'.snaps[s] == db.snaps[s])
      && (forall s | s in db'.snaps && s !in db.snaps :: db'.snaps[s].item == item && TakenFrom(db, db'.snaps[s], dish, chosen))
    ensures forall m | m in chosen :: m in db.mods && db.mods[m].dish == dish && !db.mods[m].deleted
  {
    if |chosen| > 0 {
      AllAreSelectable(db, dish, chosen);
    }
  }

  /** As many selectable as chosen: all chosen ones are, and none twice. */
  lemma {:induction false} AllAreSelectable(db: Db, dish: Id, chosen: seq<Id>)
    requires |Selectable(db, dish, chosen)| == |chosen|
    ensures forall m | m in chosen :: m in Selectable(db, dish, chosen)
  {
    SelectableAtMost(db, dish, chosen);
    forall k | 0 <= k < |chosen|
      ensures chosen[k] in Selectable(db, dish, chosen)
    {
      if chosen[k] !in Selectable(db, dish, chosen) {
        var rest := chosen[..k] + chosen[k + 1..];
        assert chosen == chosen[..k] + [chosen[k]] + chosen[k + 1..];
        assert Selectable(db, dish, rest) == Selectable(db, dish, chosen);
        SelectableAtMost(db, dish, rest);
      }
    }
  }

  lemma {:induction false} SelectableAtMost(db: Db, dish: Id, chosen: seq<Id>)
    ensures |Selectable(db, dish, chosen)| <= |chosen|
  {
    if chosen == [] {
      assert Selectable(db, dish, chosen) == {};
    } else {
      SelectableAtMost(db, dish, chosen[1..]);
      assert chosen == [chosen[0]] + chosen[1..];
      assert Selectable(db, dish, chosen) <= {chosen[0]} + Selectable(db, dish, chosen[1..]);
      SubsetIsSmaller(Selectable(db, dish, chosen), {chosen[0]} + Selectable(db, dish, chosen[1..]));
    }
  }

  lemma SubsetIsSmaller<T>(a: set<T>, b: set<T>)
    requires a <= b
    ensures |a| <= |b|
  {
    assert b == a + (b - a);
  }

  lemma ItemAdded(db: Db, stmt: Stmt)
    requires stmt.AddOrderItem? && Exec(db, stmt).Ok?
    ensures Orderable(db, stmt.order, stmt.dish) && db.dishes[stmt.dish].available && stmt.served && stmt.quantity >= 1
    ensures var db' := Exec(db, stmt).value;
      && ItemCame(db, db', stmt.id, OrderItem(stmt.order, stmt.user, stmt.dish, stmt.quantity,
                                              db.dishes[stmt.dish].name, db.dishes[stmt.dish].price, stmt.note, false))
      && (forall s | s in db'.snaps && s !in db.snaps :: TakenFrom(db, db'.snaps[s], stmt.dish, stmt.chosen))
    ensures forall m | m in stmt.chosen :: m in db.mods && db.mods[m].dish == stmt.dish && !db.mods[m].deleted
  {
    var dish := db.dishes[stmt.dish];
    var db1 := InsertItem(db, stmt.id, stmt.order, stmt.user, stmt.dish, stmt.quantity, stmt.note, dish.name, dish.price).value;
    SnapshotsCame(db1, stmt.id, stmt.dish, stmt.chosen, stmt.minted);
    hide Snapshotting, ChangeOrder, ChangeItem, RemapAndDelete, Draw, Swept, HardDelete;
  }

  lemma OtherLinesStay(db: Db, db': Db, id: Id, row: OrderItem, i: Id)
    requires Integrity(db) && ItemCame(db, db', id, row) && i in db.items
    ensures LineOf(db)(i) == LineOf(db')(i)
  {
    OtherSnapsStay(db, db', id, row, i);
    hide Integrity, ItemCame, SnapsOf, LineTotal;
    assert i in db'.items && db'.items[i] == db.items[i];
    UnmovedLine(db, db', i);
  }

  lemma OtherSnapsStay(db: Db, db': Db, id: Id, row: OrderItem, i: Id)
    requires Integrity(db) && ItemCame(db, db', id, row) && i in db.items
    ensures i in db'.items && db'.items[i] == db.items[i]
    ensures SnapsOf(db', {i}) == SnapsOf(db, {i})
    ensures forall s | s in SnapsOf(db, {i}) :: db'.snaps[s].delta == db.snaps[s].delta
  {}

  /** An item costs its order exactly its own line, and no other order anything. */
  lemma ItemCosts(db: Db, db': Db, id: Id, row: OrderItem, order: Id)
    requires Integrity(db) && ItemCame(db, db', id, row)
    ensures id in db'.items
    ensures OrderTotal(db', order) == OrderTotal(db, order) + if order == row.order then LineTotal(db', id) else 0
  {
    ItemsCame(db, db', id, row, order);
    forall i | i in ItemsOf(db, {order})
      ensures LineOf(db)(i) == LineOf(db')(i)
    {
      OtherLinesStay(db, db', id, row, i);
    }
    var before, after := ItemsOf(db, {order}), ItemsOf(db', {order});
    hide Integrity, LineTotal, SnapsOf, ItemsOf, ItemCame, SumOver;
    SumCongruent(before, LineOf(db), LineOf(db'));
    if order == row.order {
      SumSplit(after, id, LineOf(db'));
    }
  }

  lemma ItemsCame(db: Db, db': Db, id: Id, row: OrderItem, order: Id)
    requires ItemCame(db, db', id, row)
    ensures id in db'.items && id !in ItemsOf(db, {order})
    ensures order == row.order ==> id in ItemsOf(db', {order}) && ItemsOf(db', {order}) - {id} == ItemsOf(db, {order})
    ensures order != row.order ==> ItemsOf(db', {order}) == ItemsOf(db, {order})
  {}

  lemma NewItemsSnaps(db: Db, db': Db, id: Id, row: OrderItem)
    requires Integrity(db) && ItemCame(db, db', id, row)
    ensures db'.snaps - SnapsOf(db', {id}) == db.snaps
  {}

  lemma RemovingTheNewItem(db: Db, db': Db, id: Id, row: OrderItem)
    requires Integrity(db) && ItemCame(db, db', id, row)
    ensures RemoveItems(db', {id}) == db
  {
    NewItemsSnaps(db, db', id, row);
    hide Integrity, SnapsOf;
    assert db'.items - {id} == db.items;
  }

  /** Adding an item and deleting it leaves no trace, snapshots included. */
  lemma DeletingUndoesAdding(db: Db, stmt: Stmt)
    requires stmt.AddOrderItem? && Integrity(db) && Exec(db, stmt).Ok?
    ensures Exec(Exec(db, stmt).value, DeleteOrderItem(stmt.id)) == Ok(db)
  {
    var db' := Exec(db, stmt).value;
    ItemAdded(db, stmt);
    assert Exec(db', DeleteOrderItem(stmt.id)) == Ok(RemoveItems(db', {stmt.id})) by { hide NewItem, RemoveItems; }
    hide Exec, RemoveItems;
    RemovingTheNewItem(db, db', stmt.id, db'.items[stmt.id]);
  }

  /** Deleting an item takes its line off its order, and nothing off any other. */
  lemma DeletedItemCosts(db: Db, id: Id, order: Id)
    requires Integrity(db) && id in db.items
    ensures Exec(db, DeleteOrderItem(id)) == Ok(RemoveItems(db, {id}))
    ensures OrderTotal(RemoveItems(db, {id}), order)
            == OrderTotal(db, order) - if order == db.items[id].order then LineTotal(db, id) else 0
  {
    var db' := RemoveItems(db, {id});
    ItemIsLeft(db, id);
    assert Exec(db, DeleteOrderItem(id)) == Ok(db');
    hide Exec, RemoveItems, Integrity, LineTotal, OrderTotal;
    var row := db.items[id];
    ItemCosts(db', db, id, row, order);
  }

  lemma ItemIsLeft(db: Db, id: Id)
    requires Integrity(db) && id in db.items
    ensures Integrity(RemoveItems(db, {id})) && ItemCame(RemoveItems(db, {id}), db, id, db.items[id])
  {
    RemoveItemsKeeps(db, {id});
    assert (db.items - {id})[id := db.items[id]] == db.items;
  }

  // ----- ticking -----

  /** Ticking again with what was there before takes it back; it never changes what anything costs. */
  lemma TickingIsUndone(db: Db, id: Id, paid: bool, order: Id)
    requires id in db.items
    ensures Exec(db, SetOrderItemPaid(id, paid)) == Ok(Ticked(db, id, paid))
    ensures Exec(Ticked(db, id, paid), SetOrderItemPaid(id, db.items[id].paid)) == Ok(db)
    ensures Ticked(db, id, paid).items[id].paid == paid
    ensures OrderTotal(Ticked(db, id, paid), order) == OrderTotal(db, order)
  {
    assert db.items[id := db.items[id].(paid := paid)][id := db.items[id]] == db.items;
    assert Exec(db, SetOrderItemPaid(id, paid)) == Ok(Ticked(db, id, paid));
    hide Exec;
    var db' := Ticked(db, id, paid);
    assert ItemsOf(db', {order}) == ItemsOf(db, {order});
    forall i | i in ItemsOf(db, {order})
      ensures LineOf(db)(i) == LineOf(db')(i)
    {
      assert SnapsOf(db', {i}) == SnapsOf(db, {i});
      UnmovedLine(db, db', i);
    }
    hide LineTotal;
    SumCongruent(ItemsOf(db, {order}), LineOf(db), LineOf(db'));
  }

  // ----- accounts -----

  /** An account that is nobody's placeholder and no administrator goes once; the menu never notices. */
  lemma AccountGoesOnce(db: Db, user: Id, now: Time, later: Time)
    ensures Exec(db, DeleteAccount(user, now)).Ok? <==> user in db.users && user != PLACEHOLDER && !db.users[user].admin
    ensures Exec(db, DeleteAccount(user, now)).Ok? ==>
      && var db' := Exec(db, DeleteAccount(user, now)).value;
      && db'.users == db.users - {user}
      && Exec(db', DeleteAccount(user, later)) == Err(NotFound)
      && db' == db.(users := db'.users, orders := db'.orders, items := db'.items, snaps := db'.snaps,
                    sessions := db'.sessions, tokens := db'.tokens)
  {
    DeletionIs(db, user, now);
    if RemapAndDelete(db, user, now).Ok? {
      DeletionIs(RemapAndDelete(db, user, now).value, user, later);
    }
    hide RemapAndDelete;
  }

  lemma DeletionIs(db: Db, user: Id, now: Time)
    ensures Exec(db, DeleteAccount(user, now)) == RemapAndDelete(db, user, now)
    ensures RemapAndDelete(db, user, now).Ok? <==> user in db.users && user != PLACEHOLDER && !db.users[user].admin
    ensures user !in db.users ==> RemapAndDelete(db, user, now) == Err(NotFound)
    ensures RemapAndDelete(db, user, now).Ok? ==>
      && var db' := RemapAndDelete(db, user, now).value;
      && db'.users == db.users - {user}
      && db' == db.(users := db'.users, orders := db'.orders, items := db'.items, snaps := db'.snaps,
                    sessions := db'.sessions, tokens := db'.tokens)
  {
    hide SnapsOf, OpenItemsOf, InClosedOrder, HandedOver, Released;
  }

  // ----- restaurants -----

  /** Removing a restaurant for good always succeeds on consistent tables and leaves nothing of it, and of others everything. */
  lemma HardDeleteLeavesNothing(db: Db, id: Id)
    requires Consistent(db) && id in db.restaurants
    ensures Exec(db, HardDeleteRestaurant(id)).Ok?
    ensures var db' := Exec(db, HardDeleteRestaurant(id)).value;
      && Consistent(db') && id !in db'.restaurants
      && !HasOrders(db', id) && !HasDishes(db', id) && !HasCategories(db', id)
      && Exec(db', HardDeleteRestaurant(id)) == Err(NotFound)
    ensures forall o | o in db.orders && db.orders[o].restaurant != id ::
      && SameContents(db, Exec(db, HardDeleteRestaurant(id)).value, o)
      && OrderTotal(Exec(db, HardDeleteRestaurant(id)).value, o) == OrderTotal(db, o)
  {
    HardDeleteSucceeds(db, id);
    HardDeleteKeeps(db, id);
    HardDeleteRows(db, id);
    var db' := HardDelete(db, id).value;
    assert Exec(db, HardDeleteRestaurant(id)) == Ok(db') by { hide HardDelete; }
    assert Exec(db', HardDeleteRestaurant(id)) == HardDelete(db', id) == Err(NotFound) by {
      hide RemoveOrders, RemoveRestaurants;
    }
    hide Exec, HardDelete, Consistent, SameContents, OrderTotal;
    forall o | o in db.orders && db.orders[o].restaurant != id
      ensures SameContents(db, db', o) && OrderTotal(db', o) == OrderTotal(db, o)
    {
      HardDeleteSpares(db, id, o);
      SameContentsSameTotal(db, db', o);
    }
  }

  lemma HardDeleteSucceeds(db: Db, id: Id)
    requires Consistent(db) && id in db.restaurants
    ensures HardDelete(db, id).Ok?
  {
    var gone := set o | o in db.orders && db.orders[o].restaurant == id;
    RemoveOrdersKeeps(db, gone);
    RemoveRestaurantsKeeps(RemoveOrders(db, gone), {id});
    hide Consistent, RemoveRestaurants;
  }

  lemma HardDeleteRows(db: Db, id: Id)
    requires HardDelete(db, id).Ok?
    ensures var db' := HardDelete(db, id).value;
      && id !in db'.restaurants && !HasOrders(db', id) && !HasDishes(db', id) && !HasCategories(db', id)
      && (forall o | o in db.orders && db.orders[o].restaurant != id :: o in db'.orders)
  {
    var gone := set o | o in db.orders && db.orders[o].restaurant == id;
    WholeMenuGoes(RemoveOrders(db, gone), id);
    hide RemoveRestaurants;
    OrdersThereGo(db, gone, id);
    hide RemoveOrders;
  }

  lemma WholeMenuGoes(db: Db, id: Id)
    ensures var db' := RemoveRestaurants(db, {id});
      id !in db'.restaurants && !HasDishes(db', id) && !HasCategories(db', id) && db'.orders == db.orders
  {
    MenuIsGone(db, {id});
    hide RemoveDishes, RemoveCategories;
  }

  lemma OrdersThereGo(db: Db, gone: set<Id>, id: Id)
    requires forall o :: o in gone <==> o in db.orders && db.orders[o].restaurant == id
    ensures RemoveOrders(db, gone).orders == db.orders - gone
  {}
}
