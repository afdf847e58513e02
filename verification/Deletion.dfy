/** Deleting an account (F2.6): the warning shown beforehand predicts exactly what then happens. */
module Deletion {
  import opened Prelude
  import opened Schema
  import opened Sql
  import opened Sparing

  datatype Impact = Impact(
    activeOrders: nat, activeItems: nat, expiredItems: nat, createdActiveOrders: nat, activeJobs: nat)

  /** food_order LEFT JOIN order_item ON the item being the order's and the user's. */
  function LeftJoin(db: Db, user: Id): set<(Id, Option<Id>)> {
    (set o, i | o in db.orders && i in db.items && db.items[i].order == o && db.items[i].user == user :: (o, Some(i)))
    + (set o | o in db.orders && !HoldsItem(db, o, user) :: (o, None))
  }

  predicate HoldsItem(db: Db, o: Id, user: Id) {
    exists i :: i in db.items && db.items[i].order == o && db.items[i].user == user
  }

  function OpenOrders(db: Db, now: Time): set<Id> {
    set o | o in db.orders && Active(db.orders[o], now)
  }

  function ExpiredItemsOf(db: Db, user: Id, now: Time): set<Id> {
    set i | i in db.items && db.items[i].user == user
            && db.items[i].order in db.orders && !Active(db.orders[db.items[i].order], now)
  }

  function CreatedOpen(db: Db, user: Id, now: Time): set<Id> {
    set o | o in OpenOrders(db, now) && db.orders[o].creator == user
  }

  function JobsOpen(db: Db, user: Id, now: Time): set<Id> {
    set o | o in OpenOrders(db, now) && (db.orders[o].collector == Some(user) || db.orders[o].pickup == Some(user))
  }

  /** The WHERE clause over a row of the join. */
  predicate JoinedIn(db: Db, row: (Id, Option<Id>), user: Id, now: Time) {
    row.0 in OpenOrders(db, now)
    && (db.orders[row.0].creator == user || row.1.Some?
        || db.orders[row.0].collector == Some(user) || db.orders[row.0].pickup == Some(user))
  }

  function JoinedOrders(db: Db, user: Id, now: Time): set<Id> {
    set row | row in LeftJoin(db, user) && JoinedIn(db, row, user, now) :: row.0
  }

  /** The five counts of one SELECT; the first is count(DISTINCT o.id) over the join. */
  function ImpactOfDeleting(db: Db, user: Id, now: Time): Impact {
    Impact(|JoinedOrders(db, user, now)|, |OpenItemsOf(db, user, now)|, |ExpiredItemsOf(db, user, now)|,
           |CreatedOpen(db, user, now)|, |JobsOpen(db, user, now)|)
  }

  /** A missing order is an error rather than no. */
  function IsParticipant(db: Db, order: Id, user: Id): Result<bool, DbError> {
    if order !in db.orders then Err(NotFound)
    else
      var o := db.orders[order];
      Ok(o.creator == user || o.collector == Some(user) || o.pickup == Some(user) || HoldsItem(db, order, user))
  }

  /** The overview's number is the number of open orders the user takes part in, by the one definition. */
  lemma ActiveOrdersAreParticipations(db: Db, user: Id, now: Time)
    ensures ImpactOfDeleting(db, user, now).activeOrders
            == |set o | o in OpenOrders(db, now) && IsParticipant(db, o, user) == Ok(true)|
  {
    var counted := JoinedOrders(db, user, now);
    var participations := set o | o in OpenOrders(db, now) && IsParticipant(db, o, user) == Ok(true);
    forall o | o in participations
      ensures o in counted
    {
      if HoldsItem(db, o, user) {
        var i :| i in db.items && db.items[i].order == o && db.items[i].user == user;
        assert (o, Some(i)) in LeftJoin(db, user);
      } else {
        assert (o, None) in LeftJoin(db, user);
      }
    }
    assert counted == participations;
  }

  // ----- row by row -----

  predicate ItemsAfter(db: Db, db': Db, user: Id, now: Time) {
    && db'.items.Keys == db.items.Keys - OpenItemsOf(db, user, now)
    && (forall i | i in db'.items :: i in db.items && db'.items[i] == db.items[i].(user := HandedOver(db.items[i].user, user)))
    && db'.snaps == db.snaps - SnapsOf(db, OpenItemsOf(db, user, now))
  }

  predicate OrdersAfter(db: Db, db': Db, user: Id) {
    && db'.orders.Keys == db.orders.Keys
    && (forall o | o in db.orders :: db'.orders[o] == db.orders[o].(
          creator := HandedOver(db.orders[o].creator, user),
          collector := Released(db.orders[o].collector, {user}),
          pickup := Released(db.orders[o].pickup, {user})))
  }

  lemma PassingOnItems(db: Db, user: Id, now: Time)
    requires Integrity(db) && user != PLACEHOLDER
    ensures var db1 := ItemsPassedOn(db, user, now);
      && OpenItemsOf(db1, user, now) == OpenItemsOf(db, user, now)
      && db1.orders == db.orders && db1.snaps == db.snaps && db1.items.Keys == db.items.Keys
      && forall i | i in db.items && i !in OpenItemsOf(db, user, now) ::
           db1.items[i] == db.items[i].(user := HandedOver(db.items[i].user, user))
  {}

  /** What the transaction leaves. */
  lemma DeletionRows(db: Db, user: Id, now: Time)
    requires Integrity(db) && RemapAndDelete(db, user, now).Ok?
    ensures ItemsAfter(db, RemapAndDelete(db, user, now).value, user, now)
    ensures OrdersAfter(db, RemapAndDelete(db, user, now).value, user)
  {
    PassingOnItems(db, user, now);
    hide Integrity, ItemsPassedOn;
    var db1 := ItemsPassedOn(db, user, now);
    var db2 := RemoveItems(db1, OpenItemsOf(db, user, now));
    assert SnapsOf(db1, OpenItemsOf(db, user, now)) == SnapsOf(db, OpenItemsOf(db, user, now));
    LastTwoSteps(db2, user);
  }

  lemma LastTwoSteps(db: Db, user: Id)
    requires user != PLACEHOLDER
    ensures var db' := RemoveUser(OrdersPassedOn(db, user), user);
      && OrdersAfter(db, db', user)
      && db'.items.Keys == db.items.Keys && db'.snaps == db.snaps
      && forall i | i in db.items :: db'.items[i] == db.items[i].(user := HandedOver(db.items[i].user, user))
  {}

  // ----- the prediction -----

  predicate ItemsPredicted(db: Db, db': Db, user: Id, impact: Impact) {
    && impact.activeItems == |db.items.Keys - db'.items.Keys|
    && impact.expiredItems
       == |set i | i in db.items && i in db'.items && db.items[i].user == user && db'.items[i].user == PLACEHOLDER|
  }

  predicate OrdersPredicted(db: Db, db': Db, user: Id, now: Time, impact: Impact) {
    && impact.createdActiveOrders
       == |set o | o in OpenOrders(db, now) && o in db'.orders
                   && db.orders[o].creator == user && db'.orders[o].creator == PLACEHOLDER|
    && impact.activeJobs
       == |set o | o in OpenOrders(db, now) && o in db'.orders && VacatedBy(db.orders[o], db'.orders[o], user)|
  }

  lemma ItemsArePredicted(db: Db, db': Db, user: Id, now: Time)
    requires Integrity(db) && ItemsAfter(db, db', user, now)
    ensures ItemsPredicted(db, db', user, ImpactOfDeleting(db, user, now))
  {
    assert OpenItemsOf(db, user, now) == db.items.Keys - db'.items.Keys;
    assert ExpiredItemsOf(db, user, now)
        == (set i | i in db.items && i in db'.items && db.items[i].user == user && db'.items[i].user == PLACEHOLDER);
  }

  lemma OrdersArePredicted(db: Db, db': Db, user: Id, now: Time)
    requires OrdersAfter(db, db', user)
    ensures OrdersPredicted(db, db', user, now, ImpactOfDeleting(db, user, now))
  {
    assert CreatedOpen(db, user, now)
        == (set o | o in OpenOrders(db, now) && o in db'.orders
                    && db.orders[o].creator == user && db'.orders[o].creator == PLACEHOLDER);
    assert JobsOpen(db, user, now)
        == (set o | o in OpenOrders(db, now) && o in db'.orders && VacatedBy(db.orders[o], db'.orders[o], user));
  }

  /**
   * At the same instant, the four counts of rows are the rows: items removed, items handed to the
   * placeholder, open orders handed to it, open orders left with a job vacant.
   */
  lemma ImpactIsExact(db: Db, user: Id, now: Time)
    requires Integrity(db) && RemapAndDelete(db, user, now).Ok?
    ensures ItemsPredicted(db, RemapAndDelete(db, user, now).value, user, ImpactOfDeleting(db, user, now))
    ensures OrdersPredicted(db, RemapAndDelete(db, user, now).value, user, now, ImpactOfDeleting(db, user, now))
  {
    DeletionRows(db, user, now);
    hide RemapAndDelete, ImpactOfDeleting;
    ItemsArePredicted(db, RemapAndDelete(db, user, now).value, user, now);
    OrdersArePredicted(db, RemapAndDelete(db, user, now).value, user, now);
  }

  /** The user did a job of this order, and nobody does it now. */
  predicate VacatedBy(before: Order, after: Order, user: Id) {
    || (before.collector == Some(user) && after.collector == None)
    || (before.pickup == Some(user) && after.pickup == None)
  }

  /** No row names the account, and the rows that did not before are as they were. */
  predicate Forgotten(db: Db, db': Db, user: Id) {
    && (forall i | i in db'.items :: db'.items[i].user != user)
    && (forall o | o in db'.orders ::
          db'.orders[o].creator != user && db'.orders[o].collector != Some(user) && db'.orders[o].pickup != Some(user))
    && (forall i | i in db.items && db.items[i].user != user :: i in db'.items && db'.items[i] == db.items[i])
    && (forall o | o in db.orders && db.orders[o].creator != user && db.orders[o].collector != Some(user)
                   && db.orders[o].pickup != Some(user) :: o in db'.orders && db'.orders[o] == db.orders[o])
  }

  lemma RowsForget(db: Db, db': Db, user: Id, now: Time)
    requires user != PLACEHOLDER && ItemsAfter(db, db', user, now) && OrdersAfter(db, db', user)
    ensures Forgotten(db, db', user)
  {}

  lemma LoginsGo(db: Db, user: Id, now: Time)
    requires RemapAndDelete(db, user, now).Ok?
    ensures var db' := RemapAndDelete(db, user, now).value;
      && user != PLACEHOLDER && user !in db'.users
      && (forall s | s in db'.sessions :: db'.sessions[s].user != user)
      && (forall t | t in db'.tokens :: db'.tokens[t].user != user)
  {}

  /** Afterwards nothing refers to the account. */
  lemma NothingRefersToTheDeleted(db: Db, user: Id, now: Time)
    requires Integrity(db) && RemapAndDelete(db, user, now).Ok?
    ensures var db' := RemapAndDelete(db, user, now).value;
      && user !in db'.users && Forgotten(db, db', user)
      && (forall s | s in db'.sessions :: db'.sessions[s].user != user)
      && (forall t | t in db'.tokens :: db'.tokens[t].user != user)
  {
    DeletionRows(db, user, now);
    LoginsGo(db, user, now);
    hide RemapAndDelete;
    RowsForget(db, RemapAndDelete(db, user, now).value, user, now);
  }

  /** The total of an order that has closed is the same for everyone still in it. */
  lemma ExpiredTotalsStand(db: Db, user: Id, now: Time, order: Id)
    requires RemapAndDelete(db, user, now).Ok?
    requires order in db.orders && !Active(db.orders[order], now)
    ensures OrderTotal(RemapAndDelete(db, user, now).value, order) == OrderTotal(db, order)
  {
    DeletionSpares(db, user, now, order);
    SameContentsSameTotal(db, RemapAndDelete(db, user, now).value, order);
  }

  /** An open order loses exactly the lines of the user who left, and costs that much less. */
  lemma OpenTotalsDropTheirLines(db: Db, user: Id, now: Time, order: Id)
    requires Integrity(db) && RemapAndDelete(db, user, now).Ok?
    requires order in db.orders && Active(db.orders[order], now)
    ensures OrderTotal(RemapAndDelete(db, user, now).value, order)
            == SumOver(OthersItems(db, order, user), LineOf(db))
  {
    DeletionRows(db, user, now);
    hide RemapAndDelete;
    LinesDropped(db, RemapAndDelete(db, user, now).value, user, now, order);
  }

  /** The items of an order that are not this user's. */
  function OthersItems(db: Db, order: Id, user: Id): set<Id> {
    set i | i in ItemsOf(db, {order}) && db.items[i].user != user
  }

  lemma OthersStay(db: Db, db': Db, user: Id, now: Time, order: Id)
    requires Integrity(db) && ItemsAfter(db, db', user, now)
    requires order in db.orders && Active(db.orders[order], now)
    ensures ItemsOf(db', {order}) == OthersItems(db, order, user)
  {}

  lemma LinesDropped(db: Db, db': Db, user: Id, now: Time, order: Id)
    requires Integrity(db) && ItemsAfter(db, db', user, now)
    requires order in db.orders && Active(db.orders[order], now)
    ensures OrderTotal(db', order) == SumOver(OthersItems(db, order, user), LineOf(db))
  {
    OthersStay(db, db', user, now, order);
    forall i | i in ItemsOf(db', {order})
      ensures LineOf(db)(i) == LineOf(db')(i)
    {
      SameSnapsSameLine(db, db', user, now, i);
    }
    hide Integrity, ItemsAfter, LineOf;
    SumCongruent(ItemsOf(db', {order}), LineOf(db'), LineOf(db));
  }

  lemma SameSnapsSameLine(db: Db, db': Db, user: Id, now: Time, i: Id)
    requires ItemsAfter(db, db', user, now) && i in db'.items
    ensures LineOf(db')(i) == LineOf(db)(i)
  {
    assert SnapsOf(db', {i}) == SnapsOf(db, {i});
    SumCongruent(SnapsOf(db, {i}), DeltaOf(db), DeltaOf(db'));
  }
}
