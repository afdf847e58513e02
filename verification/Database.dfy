/**
 * internal/db over mutable tables: each method runs its statements one by one and is proved to be
 * the step of module Sql, so everything proved about runs of those steps holds of these methods.
 */
module Database {
  import opened Prelude
  import opened Schema
  import opened Sql
  import opened Cleanup
  import Draws

  function Failure(r: Result<Db, DbError>): Option<DbError> {
    match r
    case Ok(_) => None
    case Err(e) => Some(e)
  }

  datatype CleanupStep = CleanupStep(sweep: Sweep, count: nat)

  lemma RowPerMint(tx: Db, item: Id, minted: map<Id, Id>)
    requires forall s | s in minted :: minted[s] in tx.mods
    ensures |SnapshotRows(tx, item, minted)| == |minted| && SnapshotRows(tx, item, minted).Keys == minted.Keys
  {
    assert SnapshotRows(tx, item, minted).Keys == minted.Keys;
  }

  lemma {:induction false} DistinctValues(ids: set<Id>, minted: map<Id, Id>, found: set<Id>)
    requires ids <= minted.Keys && forall s | s in ids :: minted[s] in found
    requires forall s, t | s in ids && t in ids && minted[s] == minted[t] :: s == t
    ensures |ids| == |found| ==> forall m | m in found :: exists s :: s in ids && minted[s] == m
    ensures |ids| <= |found|
    decreases |ids|
  {
    if ids == {} {
      assert |found| == 0 ==> found == {};
    } else {
      var s :| s in ids;
      DistinctValues(ids - {s}, minted, found - {minted[s]});
      assert |ids - {s}| == |ids| - 1 && |found - {minted[s]}| == |found| - 1;
      forall m | m in found && |ids| == |found|
        ensures exists t :: t in ids && minted[t] == m
      {
        if m != minted[s] {
          assert m in found - {minted[s]};
          var t :| t in ids - {s} && minted[t] == m;
        }
      }
    }
  }

  /** Ids minted one for each row found: every modification found is snapshotted, and once. */
  lemma EveryChoiceIsSnapshotted(db: Db, item: Id, minted: map<Id, Id>, found: set<Id>, m: Id)
    requires MintedFor(db, minted, found) && m in found && forall k | k in found :: k in db.mods
    ensures exists s :: s in minted && SnapshotRows(db, item, minted)[s] == SnapshotRow(db, item, m)
    ensures forall s, t | s in minted && t in minted && minted[s] == m && minted[t] == m :: s == t
  {
    assert |minted.Keys| == |minted|;
    DistinctValues(minted.Keys, minted, found);
    var s :| s in minted && minted[s] == m;
    assert SnapshotRows(db, item, minted)[s] == SnapshotRow(db, item, m);
  }

  lemma MintNext(tx: Db, item: Id, minted: map<Id, Id>, s: Id, m: Id)
    requires m in tx.mods && forall k | k in minted :: minted[k] in tx.mods
    ensures SnapshotRows(tx, item, minted[s := m]) == SnapshotRows(tx, item, minted)[s := SnapshotRow(tx, item, m)]
  {}

  /** An item's statement alone, without the other statements there are. */
  lemma ItemUpdateIs(db: Db, id: Id, quantity: Option<int>, note: Option<string>, chosen: Option<seq<Id>>)
    ensures forall minted :: var stmt := Stmt.UpdateOrderItem(id, quantity, note, chosen, minted);
      && Exec(db, stmt) == ChangeItem(db, id, quantity, note, chosen, minted)
      && After(db, stmt) == (if Exec(db, stmt).Ok? then Exec(db, stmt).value else db)
  {
    hide ChangeItem;
  }

  /** A connection pool: whoever holds it sees and writes the same tables. */
  class Pool {
    var db: Db

    // ----- orders -----

    method CreateOrder(id: Id, creator: Id, at: Id, fulfilment: Fulfilment, fulfilmentAt: Time,
                       deadlineAt: Time, collector: Option<Id>, pickup: Option<Id>)
      returns (err: Option<DbError>)
      modifies this
      ensures var stmt := Stmt.CreateOrder(id, creator, at, fulfilment, fulfilmentAt, deadlineAt, collector, pickup);
              db == After(old(db), stmt) && err == Failure(Exec(old(db), stmt))
    {
      if at !in db.restaurants || db.restaurants[at].deleted {
        return Some(NotFound);
      }
      if id in db.orders || creator !in db.users || !RefersTo(collector, db.users) || !RefersTo(pickup, db.users)
         || deadlineAt >= fulfilmentAt {
        return Some(Refused);
      }
      var row := Order(creator, at, fulfilment, fulfilmentAt, deadlineAt, collector, pickup,
                       db.restaurants[at].terms, false, false, false);
      db := db.(orders := db.orders[id := row]);
      return None;
    }

    /** The SET list grows field by field; the WHERE clause carries the restaurant lock. */
    method UpdateOrder(id: Id, u: OrderUpdate) returns (err: Option<DbError>)
      modifies this
      ensures db == After(old(db), Stmt.UpdateOrder(id, u))
      ensures err == Failure(Exec(old(db), Stmt.UpdateOrder(id, u)))
    {
      if id !in db.orders {
        return Some(NotFound);
      }
      if u == NO_UPDATE {
        return None;
      }
      if u.restaurant.Some? && HasItems(db, id) {
        return Some(RestaurantLocked);
      }
      if !RefersTo(u.restaurant, db.restaurants) {
        return Some(Refused);
      }
      var row := db.orders[id];
      if u.restaurant.Some? {
        row := row.(restaurant := u.restaurant.value, terms := db.restaurants[u.restaurant.value].terms);
      }
      if u.fulfilment.Some? {
        row := row.(fulfilment := u.fulfilment.value);
      }
      if u.fulfilmentAt.Some? {
        row := row.(fulfilmentAt := u.fulfilmentAt.value);
      }
      if u.deadlineAt.Some? {
        row := row.(deadlineAt := u.deadlineAt.value);
      }
      if u.collector.Some? {
        row := row.(collector := u.collector.value);
      }
      if u.pickup.Some? {
        row := row.(pickup := u.pickup.value);
      }
      assert row == Patched(db.orders[id], u, db.restaurants);
      if row.deadlineAt >= row.fulfilmentAt {
        return Some(Refused);
      }
      if !NamesPeople(u, db.users) {
        return Some(UnknownReference);
      }
      db := db.(orders := db.orders[id := row]);
      return None;
    }

    method DeleteOrder(id: Id) returns (err: Option<DbError>)
      modifies this
      ensures db == After(old(db), Stmt.DeleteOrder(id))
      ensures err == Failure(Exec(old(db), Stmt.DeleteOrder(id)))
    {
      if id !in db.orders {
        return Some(NotFound);
      }
      db := RemoveOrders(db, {id});
      return None;
    }

    // ----- order items -----

    /** The inserting loop of insertModifications: one row per modification found, each with an id of its own. */
    static method SnapshotAll(tx: Db, item: Id, found: set<Id>, uuids: seq<Id>)
      returns (rows: map<Id, Snapshot>, ghost minted: map<Id, Id>)
      requires |uuids| >= |found|
      requires forall j, k | 0 <= j < k < |uuids| :: uuids[j] != uuids[k]
      requires forall k | 0 <= k < |uuids| :: uuids[k] !in tx.snaps
      requires forall m | m in found :: m in tx.mods
      ensures MintedFor(tx, minted, found)
      ensures rows == SnapshotRows(tx, item, minted)
      ensures |rows| == |found| && rows.Keys !! tx.snaps.Keys
    {
      minted, rows := map[], map[];
      var rest := found;
      var n := 0;
      while rest != {}
        invariant rest <= found
        invariant n + |rest| == |found|
        invariant forall s | s in minted :: s in uuids[..n]
        invariant |minted| == n
        invariant forall k | k in minted :: minted[k] in found - rest
        invariant forall j, k | j in minted && k in minted && minted[j] == minted[k] :: j == k
        invariant rows == SnapshotRows(tx, item, minted)
        decreases rest
      {
        var m :| m in rest;
        var s := uuids[n];
        assert s !in minted;
        MintNext(tx, item, minted, s, m);
        rows := rows[s := SnapshotRow(tx, item, m)];
        minted := minted[s := m];
        rest := rest - {m};
        n := n + 1;
      }
      RowPerMint(tx, item, minted);
    }

    /** insertModifications on the transaction's copy of the tables: read the menu rows, then insert. */
    static method InsertModifications(tx: Db, item: Id, dish: Id, chosen: seq<Id>, uuids: seq<Id>)
      returns (tx': Db, err: Option<DbError>, ghost minted: map<Id, Id>)
      requires |uuids| >= |chosen|
      requires forall j, k | 0 <= j < k < |uuids| :: uuids[j] != uuids[k]
      requires forall k | 0 <= k < |uuids| :: uuids[k] !in tx.snaps
      ensures err == if |Selectable(tx, dish, chosen)| == |chosen| then None else Some(ModificationWrongItem)
      ensures err == Failure(Snapshotting(tx, item, dish, chosen, minted))
      ensures err.None? ==> tx' == Snapshotting(tx, item, dish, chosen, minted).value
    {
      if |chosen| == 0 {
        return tx, None, map[];
      }
      var found := Selectable(tx, dish, chosen);
      if |found| != |chosen| {
        return tx, Some(ModificationWrongItem), map[];
      }
      var rows;
      rows, minted := SnapshotAll(tx, item, found, uuids);
      tx', err := tx.(snaps := tx.snaps + rows), None;
    }
  
    /** One transaction: the join, the item, its snapshots; a failure leaves nothing behind. */
    method AddOrderItem(id: Id, order: Id, user: Id, dish: Id, quantity: int, note: string,
                        chosen: seq<Id>, served: bool, uuids: seq<Id>)
      returns (err: Option<DbError>, ghost minted: map<Id, Id>)
      requires |uuids| >= |chosen|
      requires forall j, k | 0 <= j < k < |uuids| :: uuids[j] != uuids[k]
      requires forall k | 0 <= k < |uuids| :: uuids[k] !in db.snaps
      modifies this
      ensures var stmt := Stmt.AddOrderItem(id, order, user, dish, quantity, note, chosen, served, minted);
              db == After(old(db), stmt) && err == Failure(Exec(old(db), stmt))
    {
      minted := map[];
      if !Orderable(db, order, dish) {
        return Some(WrongRestaurant), minted;
      }
      var m := db.dishes[dish];
      if !m.available {
        return Some(ItemUnavailable), minted;
      }
      if !served {
        return Some(ItemNotServedThen), minted;
      }
      if id in db.items || user !in db.users || quantity < 1 {
        return Some(Refused), minted;
      }
      var row := OrderItem(order, user, dish, quantity, m.name, m.price, note, false);
      var tx := db.(items := db.items[id := row]);
      tx, err, minted := InsertModifications(tx, id, dish, chosen, uuids);
      if err.None? {
        db := tx;
      }
    }

    method UpdateOrderItem(id: Id, quantity: Option<int>, note: Option<string>, chosen: Option<seq<Id>>, uuids: seq<Id>)
      returns (err: Option<DbError>, ghost minted: map<Id, Id>)
      requires chosen.Some? ==> |uuids| >= |chosen.value|
      requires forall j, k | 0 <= j < k < |uuids| :: uuids[j] != uuids[k]
      requires forall k | 0 <= k < |uuids| :: uuids[k] !in db.snaps
      modifies this
      ensures var stmt := Stmt.UpdateOrderItem(id, quantity, note, chosen, minted);
              db == After(old(db), stmt) && err == Failure(Exec(old(db), stmt))
    {
      ItemUpdateIs(db, id, quantity, note, chosen);
      hide Exec, After;
      minted := map[];
      if id !in db.items {
        return Some(NotFound), minted;
      }
      var row := db.items[id];
      if quantity.Some? {
        if quantity.value < 1 {
          return Some(Refused), minted;
        }
        row := row.(quantity := quantity.value);
      }
      if note.Some? {
        row := row.(note := note.value);
      }
      var tx := db.(items := db.items[id := row]);
      err := None;
      if chosen.Some? {
        tx := tx.(snaps := tx.snaps - SnapsOf(tx, {id}));
        tx, err, minted := InsertModifications(tx, id, row.dish, chosen.value, uuids);
      }
      if err.None? {
        db := tx;
      }
    }

    method DeleteOrderItem(id: Id) returns (err: Option<DbError>)
      modifies this
      ensures db == After(old(db), Stmt.DeleteOrderItem(id))
      ensures err == Failure(Exec(old(db), Stmt.DeleteOrderItem(id)))
    {
      if id !in db.items {
        return Some(NotFound);
      }
      db := RemoveItems(db, {id});
      return None;
    }

    method SetOrderItemPaid(id: Id, paid: bool) returns (err: Option<DbError>)
      modifies this
      ensures db == After(old(db), Stmt.SetOrderItemPaid(id, paid))
      ensures err == Failure(Exec(old(db), Stmt.SetOrderItemPaid(id, paid)))
    {
      if id !in db.items {
        return Some(NotFound);
      }
      db := db.(items := db.items[id := db.items[id].(paid := paid)]);
      return None;
    }

    // ----- accounts, the draw, the cleanup -----

    /** remapAndDelete in one transaction, its four statements in order. */
    method DeleteAccount(user: Id, now: Time) returns (err: Option<DbError>)
      modifies this
      ensures db == After(old(db), Stmt.DeleteAccount(user, now))
      ensures err == Failure(Exec(old(db), Stmt.DeleteAccount(user, now)))
    {
      var tx := ItemsPassedOn(db, user, now);
      tx := RemoveItems(tx, OpenItemsOf(tx, user, now));
      tx := OrdersPassedOn(tx, user);
      if user !in tx.users {
        return Some(NotFound);
      }
      if user == PLACEHOLDER || tx.users[user].admin {
        return Some(Refused);
      }
      db := RemoveUser(tx, user);
      return None;
    }

    /** The picked subquery: for each due order with people, one of them. */
    static method Pick(db: Db, due: set<Id>) returns (picked: map<Id, Id>)
      ensures LegalPicks(db, due, picked)
    {
      picked := map[];
      var rest := due;
      while rest != {}
        invariant rest <= due
        invariant picked.Keys == set o | o in due && o !in rest && People(db, o) != {}
        invariant forall o | o in picked :: picked[o] in People(db, o)
        decreases rest
      {
        var o :| o in rest;
        if People(db, o) != {} {
          var u :| u in People(db, o);
          picked := picked[o := u];
        }
        rest := rest - {o};
      }
    }

    /** The returned rows, of which only those with somebody picked are kept. */
    static method CollectFilled(due: set<Id>, picked: map<Id, Id>) returns (filled: seq<Id>)
      requires picked.Keys <= due
      ensures forall o :: o in filled <==> o in picked
      ensures forall j, k | 0 <= j < k < |filled| :: filled[j] != filled[k]
    {
      filled := [];
      var outcomes := due;
      while outcomes != {}
        invariant outcomes <= due
        invariant forall o :: o in filled <==> o in picked && o !in outcomes
        invariant forall j, k | 0 <= j < k < |filled| :: filled[j] != filled[k]
        decreases outcomes
      {
        var o :| o in outcomes;
        if o in picked {
          filled := filled + [o];
        }
        outcomes := outcomes - {o};
      }
    }

    /** The pick is anybody's guess; the answer lists, once each, the orders in which it filled a job. */
    method DrawJobs(now: Time, locked: set<Id>) returns (filled: seq<Id>, ghost picks: map<Id, Id>)
      modifies this
      ensures Exec(old(db), Stmt.DrawJobs(now, locked, picks)).Ok?
      ensures db == After(old(db), Stmt.DrawJobs(now, locked, picks))
      ensures forall o :: o in filled <==>
        && o in old(db).orders && o !in locked && !old(db).orders[o].jobsDrawn && old(db).orders[o].deadlineAt <= now
        && (old(db).orders[o].collector.None? || old(db).orders[o].pickup.None?)
        && exists i :: i in old(db).items && old(db).items[i].order == o && old(db).items[i].user != PLACEHOLDER
      ensures forall j, k | 0 <= j < k < |filled| :: filled[j] != filled[k]
    {
      var due := Due(db, now, locked);
      var picked := Pick(db, due);
      picks := picked;
      db := db.(orders := map o | o in db.orders ::
        if o in due then DrawnOrder(db.orders[o], PickFor(picked, o)) else db.orders[o]);
      filled := CollectFilled(due, picked);
      forall o | o in old(db).orders
        ensures o in filled <==>
          && o !in locked && !old(db).orders[o].jobsDrawn && old(db).orders[o].deadlineAt <= now
          && Draws.HasPeople(old(db), o) && (old(db).orders[o].collector.None? || old(db).orders[o].pickup.None?)
      {
        Draws.FilledOrders(old(db), now, locked, picks, o);
      }
    }

    /** Counts, and deletes unless this is a dry run. */
    method RunCleanupStep(sweep: Sweep, now: Time, retention: Time, dryRun: bool) returns (count: nat)
      modifies this
      ensures count == |Doomed(old(db), sweep, now, retention)|
      ensures db == if dryRun then old(db) else Swept(old(db), sweep, now, retention)
    {
      count := |Doomed(db, sweep, now, retention)|;
      if dryRun {
        return;
      }
      db := Swept(db, sweep, now, retention);
    }

    /** The report has one step per sweep, in order, with what it removed or would have. */
    method Cleanup(retention: Time, now: Time, dryRun: bool) returns (report: seq<CleanupStep>)
      modifies this
      ensures db == if dryRun then old(db) else CleanedUp(old(db), now, retention)
      ensures |report| == |SWEEPS|
      ensures forall k | 0 <= k < |SWEEPS| ::
        && report[k].sweep == SWEEPS[k]
        && report[k].count == if dryRun then DryCount(old(db), k, now, retention)
                              else RealCount(old(db), k, now, retention)
    {
      report := [];
      for n := 0 to |SWEEPS|
        invariant db == if dryRun then old(db) else AfterSweeps(old(db), n, now, retention)
        invariant |report| == n
        invariant forall k | 0 <= k < n ::
          && report[k].sweep == SWEEPS[k]
          && report[k].count == if dryRun then DryCount(old(db), k, now, retention)
                                else RealCount(old(db), k, now, retention)
      {
        var count := RunCleanupStep(SWEEPS[n], now, retention, dryRun);
        report := report + [CleanupStep(SWEEPS[n], count)];
      }
    }

    // ----- the menu -----

    method SoftDeleteRestaurant(id: Id) returns (err: Option<DbError>)
      modifies this
      ensures db == After(old(db), Stmt.SoftDeleteRestaurant(id))
      ensures err == Failure(Exec(old(db), Stmt.SoftDeleteRestaurant(id)))
    {
      if id in db.restaurants && !db.restaurants[id].deleted && !HasOrders(db, id) {
        db := db.(restaurants := db.restaurants[id := db.restaurants[id].(deleted := true)]);
        return None;
      }
      if HasOrders(db, id) {
        return Some(StillReferenced);
      }
      return Some(NotFound);
    }

    /** The dishes are released first, and stay released even when the category was gone already. */
    method SoftDeleteCategory(id: Id) returns (err: Option<DbError>)
      modifies this
      ensures db == After(old(db), Stmt.SoftDeleteCategory(id))
      ensures err == Failure(Exec(old(db), Stmt.SoftDeleteCategory(id)))
    {
      db := Unfiled(db, id);
      if id !in db.categories || db.categories[id].deleted {
        return Some(NotFound);
      }
      db := db.(categories := db.categories[id := db.categories[id].(deleted := true)]);
      return None;
    }

    method SoftDeleteMenuItem(id: Id) returns (err: Option<DbError>)
      modifies this
      ensures db == After(old(db), Stmt.SoftDeleteMenuItem(id))
      ensures err == Failure(Exec(old(db), Stmt.SoftDeleteMenuItem(id)))
    {
      if id !in db.dishes || db.dishes[id].deleted {
        return Some(NotFound);
      }
      db := db.(dishes := db.dishes[id := db.dishes[id].(deleted := true)]);
      return None;
    }

    /** The SET list grows field by field, on rows whose references hold. */
    method UpdateMenuItem(id: Id, u: DishUpdate) returns (err: Option<DbError>)
      requires DishesOk(db)
      modifies this
      ensures db == After(old(db), Stmt.UpdateMenuItem(id, u))
      ensures err == Failure(Exec(old(db), Stmt.UpdateMenuItem(id, u)))
    {
      if id !in db.dishes || db.dishes[id].deleted {
        return Some(NotFound);
      }
      var row := db.dishes[id];
      if u.category.Some? {
        row := row.(category := u.category.value);
      }
      if u.name.Some? {
        row := row.(name := u.name.value);
      }
      if u.image.Some? {
        row := row.(image := u.image.value);
      }
      if u.price.Some? {
        row := row.(price := u.price.value);
      }
      if u.available.Some? {
        row := row.(available := u.available.value);
      }
      assert row == ChangedDish(db.dishes[id], u);
      if !DishRefs(db, row) {
        return Some(UnknownReference);
      }
      db := db.(dishes := db.dishes[id := row]);
      return None;
    }

    /** Orders first, which turns the RESTRICTs below the restaurant into a cascade. */
    method HardDeleteRestaurant(id: Id) returns (err: Option<DbError>)
      modifies this
      ensures db == After(old(db), Stmt.HardDeleteRestaurant(id))
      ensures err == Failure(Exec(old(db), Stmt.HardDeleteRestaurant(id)))
    {
      var tx := RemoveOrders(db, set o | o in db.orders && db.orders[o].restaurant == id);
      if id !in tx.restaurants {
        return Some(NotFound);
      }
      if exists i :: i in tx.items && tx.items[i].dish in DishesOf(tx, {id}) {
        return Some(Refused);
      }
      db := RemoveRestaurants(tx, {id});
      return None;
    }
  }
}
