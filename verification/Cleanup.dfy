/**
 * The cleanup as a whole pass: eight sweeps in a fixed order. One pass leaves nothing for a second,
 * and a dry run under-counts by exactly the rows that only doomed rows were pinning.
 */
module Cleanup {
  import opened Prelude
  import opened Schema
  import opened Sql
  import opened SqlInvariants

  /** The tables after the first n sweeps. */
  function AfterSweeps(db: Db, n: nat, now: Time, retention: Time): Db
    requires n <= |SWEEPS|
  {
    if n == 0 then db else Swept(AfterSweeps(db, n - 1, now, retention), SWEEPS[n - 1], now, retention)
  }

  function CleanedUp(db: Db, now: Time, retention: Time): Db {
    AfterSweeps(db, |SWEEPS|, now, retention)
  }

  /** What a real run reports for one step. */
  function RealCount(db: Db, n: nat, now: Time, retention: Time): nat
    requires n < |SWEEPS|
  {
    |Doomed(AfterSweeps(db, n, now, retention), SWEEPS[n], now, retention)|
  }

  /** What a dry run reports: the same predicate, asked of tables nothing was removed from. */
  function DryCount(db: Db, n: nat, now: Time, retention: Time): nat
    requires n < |SWEEPS|
  {
    |Doomed(db, SWEEPS[n], now, retention)|
  }

  function Position(sweep: Sweep): nat {
    match sweep
    case OldOrders => 0
    case OldModifications => 1
    case OldDishes => 2
    case OldCategories => 3
    case OldRestaurants => 4
    case OldImages => 5
    case OldSessions => 6
    case OldTokens => 7
  }

  // ----- one sweep -----

  lemma NoModsReleased(db: Db, gone: set<Id>)
    requires forall m | m in gone :: !Snapshotted(db, m)
    ensures RemoveMods(db, gone) == db.(mods := db.mods - gone)
  {
    forall s | s in db.snaps
      ensures Released(db.snaps[s].mod, gone) == db.snaps[s].mod
    {
      if db.snaps[s].mod.Some? { assert Snapshotted(db, db.snaps[s].mod.value); }
    }
    assert RemoveMods(db, gone).snaps == db.snaps;
  }

  lemma NoDishReleased(db: Db, gone: set<Id>)
    requires forall c | c in gone :: !Filed(db, c)
    ensures RemoveCategories(db, gone) == db.(categories := db.categories - gone)
  {
    forall d | d in db.dishes
      ensures Released(db.dishes[d].category, gone) == db.dishes[d].category
    {
      if db.dishes[d].category.Some? { assert Filed(db, db.dishes[d].category.value); }
    }
    assert RemoveCategories(db, gone).dishes == db.dishes;
  }

  lemma NoMenuGoes(db: Db, gone: set<Id>)
    requires forall r | r in gone :: !HasDishes(db, r) && !HasCategories(db, r)
    ensures RemoveRestaurants(db, gone) == db.(restaurants := db.restaurants - gone)
  {
    forall d | d in db.dishes ensures db.dishes[d].restaurant !in gone { assert HasDishes(db, db.dishes[d].restaurant); }
    forall c | c in db.categories ensures db.categories[c].restaurant !in gone { assert HasCategories(db, db.categories[c].restaurant); }
    assert DishesOf(db, gone) == {};
    NoModsReleased(db, {});
    assert ModsOf(db, {}) == {};
    assert db.mods - {} == db.mods && db.dishes - {} == db.dishes && db.categories - {} == db.categories;
    assert RemoveDishes(db, {}) == db;
    assert CategoriesOf(db, gone) == {};
    NoDishReleased(db, {});
  }

  lemma NoReferenceLost(db: Db, gone: set<Id>)
    requires forall g | g in gone :: !IsLogo(db, g) && !IsPicture(db, g)
    ensures RemoveImages(db, gone) == db.(images := db.images - gone)
  {
    forall r | r in db.restaurants
      ensures Released(db.restaurants[r].logo, gone) == db.restaurants[r].logo
    {
      if db.restaurants[r].logo.Some? { assert IsLogo(db, db.restaurants[r].logo.value); }
    }
    forall d | d in db.dishes
      ensures Released(db.dishes[d].image, gone) == db.dishes[d].image
    {
      if db.dishes[d].image.Some? { assert IsPicture(db, db.dishes[d].image.value); }
    }
    assert RemoveImages(db, gone).restaurants == db.restaurants;
    assert RemoveImages(db, gone).dishes == db.dishes;
  }

  /** A sweep after the first never sets a reference to null, but for modifications that go with their dish. */
  function Plain(db: Db, sweep: Sweep, gone: set<Id>): Db {
    match sweep
    case OldOrders => RemoveOrders(db, gone)
    case OldModifications => db.(mods := db.mods - gone)
    case OldDishes => RemoveDishes(db, gone)
    case OldCategories => db.(categories := db.categories - gone)
    case OldRestaurants => db.(restaurants := db.restaurants - gone)
    case OldImages => db.(images := db.images - gone)
    case OldSessions => db.(sessions := db.sessions - gone)
    case OldTokens => db.(tokens := db.tokens - gone)
  }

  lemma SweepIsPlain(db: Db, sweep: Sweep, now: Time, retention: Time)
    ensures Swept(db, sweep, now, retention) == Plain(db, sweep, Doomed(db, sweep, now, retention))
  {
    var gone := Doomed(db, sweep, now, retention);
    match sweep
    case OldModifications => NoModsReleased(db, gone);
    case OldCategories => NoDishReleased(db, gone);
    case OldRestaurants => NoMenuGoes(db, gone);
    case OldImages => NoReferenceLost(db, gone);
    case _ =>
  }

  /** A sweep leaves none of its own rows. */
  lemma SweepSettlesItself(db: Db, sweep: Sweep, now: Time, retention: Time)
    requires Integrity(db)
    ensures Doomed(Swept(db, sweep, now, retention), sweep, now, retention) == {}
  {
    SweepIsPlain(db, sweep, now, retention);
  }

  /** And makes none for a sweep that came before it. */
  lemma LaterSweepSettlesEarlier(db: Db, early: Sweep, late: Sweep, now: Time, retention: Time)
    requires Integrity(db)
    requires Position(early) < Position(late)
    requires Doomed(db, early, now, retention) == {}
    ensures Doomed(Swept(db, late, now, retention), early, now, retention) == {}
  {
    if early == OldModifications && late == OldDishes {
      StillSnapshotted(db, Doomed(db, late, now, retention));
      hide Integrity, RemoveDishes, Snapshotted;
    } else {
      SweepIsPlain(db, late, now, retention);
    }
  }

  lemma StillSnapshotted(db: Db, gone: set<Id>)
    ensures forall m | m in RemoveDishes(db, gone).mods ::
      m in db.mods && RemoveDishes(db, gone).mods[m] == db.mods[m]
      && (Snapshotted(db, m) ==> Snapshotted(RemoveDishes(db, gone), m))
  {
    forall m | m in RemoveDishes(db, gone).mods && Snapshotted(db, m)
      ensures Snapshotted(RemoveDishes(db, gone), m)
    {
      var s :| s in db.snaps && db.snaps[s].mod == Some(m);
      assert RemoveDishes(db, gone).snaps[s].mod == Some(m);
    }
  }

  // ----- one pass -----

  lemma {:induction false} PassKeepsIntegrity(db: Db, n: nat, now: Time, retention: Time)
    requires Integrity(db) && n <= |SWEEPS|
    ensures Integrity(AfterSweeps(db, n, now, retention))
  {
    if n > 0 {
      PassKeepsIntegrity(db, n - 1, now, retention);
      hide Integrity, Swept;
      SweepKeepsIntegrity(AfterSweeps(db, n - 1, now, retention), SWEEPS[n - 1], now, retention);
    }
  }

  /** From its own turn on, a table has no row its sweep would remove. */
  lemma {:induction false} SettledFromItsTurn(db: Db, k: nat, n: nat, now: Time, retention: Time)
    requires Integrity(db) && k < n <= |SWEEPS|
    ensures Doomed(AfterSweeps(db, n, now, retention), SWEEPS[k], now, retention) == {}
  {
    hide Integrity, Swept, Doomed;
    PassKeepsIntegrity(db, n - 1, now, retention);
    var before := AfterSweeps(db, n - 1, now, retention);
    if k == n - 1 {
      SweepSettlesItself(before, SWEEPS[k], now, retention);
    } else {
      SettledFromItsTurn(db, k, n - 1, now, retention);
      LaterSweepSettlesEarlier(before, SWEEPS[k], SWEEPS[n - 1], now, retention);
    }
  }

  lemma NothingDoomedNothingChanges(db: Db, sweep: Sweep, now: Time, retention: Time)
    requires Doomed(db, sweep, now, retention) == {}
    ensures Swept(db, sweep, now, retention) == db
  {
    SweepIsPlain(db, sweep, now, retention);
    hide Swept, Doomed;
    match sweep
    case OldOrders =>
      assert ItemsOf(db, {}) == {} && SnapsOf(db, {}) == {};
      assert db.orders - {} == db.orders && db.items - {} == db.items && db.snaps - {} == db.snaps;
    case OldModifications => assert db.mods - {} == db.mods;
    case OldDishes =>
      NoModsReleased(db, {});
      assert ModsOf(db, {}) == {} && db.mods - {} == db.mods && db.dishes - {} == db.dishes;
    case OldCategories => assert db.categories - {} == db.categories;
    case OldRestaurants => assert db.restaurants - {} == db.restaurants;
    case OldImages => assert db.images - {} == db.images;
    case OldSessions => assert db.sessions - {} == db.sessions;
    case OldTokens => assert db.tokens - {} == db.tokens;
  }

  lemma {:induction false} SettledPassIsIdle(db: Db, n: nat, now: Time, retention: Time)
    requires n <= |SWEEPS|
    requires forall k | 0 <= k < |SWEEPS| :: Doomed(db, SWEEPS[k], now, retention) == {}
    ensures AfterSweeps(db, n, now, retention) == db
  {
    if n > 0 {
      SettledPassIsIdle(db, n - 1, now, retention);
      NothingDoomedNothingChanges(db, SWEEPS[n - 1], now, retention);
    }
  }

  /**
   * One pass is a fixpoint: from any tables the foreign keys allow, a second pass at the same
   * instant with the same retention removes nothing and reports zero for every step.
   */
  lemma CleanupIsAFixpoint(db: Db, now: Time, retention: Time)
    requires Integrity(db)
    ensures CleanedUp(CleanedUp(db, now, retention), now, retention) == CleanedUp(db, now, retention)
    ensures forall n | 0 <= n < |SWEEPS| :: RealCount(CleanedUp(db, now, retention), n, now, retention) == 0
    ensures Integrity(CleanedUp(db, now, retention))
  {
    var clean := CleanedUp(db, now, retention);
    PassKeepsIntegrity(db, |SWEEPS|, now, retention);
    hide Integrity, Swept, Doomed;
    forall k | 0 <= k < |SWEEPS|
      ensures Doomed(clean, SWEEPS[k], now, retention) == {}
    {
      SettledFromItsTurn(db, k, |SWEEPS|, now, retention);
    }
    hide AfterSweeps;
    forall n: nat | n <= |SWEEPS|
      ensures AfterSweeps(clean, n, now, retention) == clean
    {
      SettledPassIsIdle(clean, n, now, retention);
    }
  }

  // ----- exactly which rows a pass takes, said of the tables before it -----

  predicate OrderGoes(db: Db, o: Id, now: Time, retention: Time) {
    o in db.orders && db.orders[o].deadlineAt < now - retention
  }

  predicate ItemGoes(db: Db, i: Id, now: Time, retention: Time) {
    i in db.items && OrderGoes(db, db.items[i].order, now, retention)
  }

  /** Soft-deleted, and in no order that stays. */
  predicate DishGoes(db: Db, d: Id, now: Time, retention: Time) {
    && d in db.dishes && db.dishes[d].deleted
    && (forall i | i in db.items && db.items[i].dish == d :: ItemGoes(db, i, now, retention))
  }

  /** Soft-deleted, and chosen for no item that stays. */
  predicate ModificationFreed(db: Db, m: Id, now: Time, retention: Time) {
    && m in db.mods && db.mods[m].deleted
    && (forall s | s in db.snaps && db.snaps[s].mod == Some(m) :: ItemGoes(db, db.snaps[s].item, now, retention))
  }

  predicate ModificationGoes(db: Db, m: Id, now: Time, retention: Time) {
    m in db.mods && (ModificationFreed(db, m, now, retention) || DishGoes(db, db.mods[m].dish, now, retention))
  }

  predicate CategoryGoes(db: Db, c: Id, now: Time, retention: Time) {
    && c in db.categories && db.categories[c].deleted
    && (forall d | d in db.dishes && db.dishes[d].category == Some(c) :: DishGoes(db, d, now, retention))
  }

  predicate AllOrdersGo(db: Db, r: Id, now: Time, retention: Time) {
    forall o | o in db.orders && db.orders[o].restaurant == r :: OrderGoes(db, o, now, retention)
  }

  predicate AllDishesGo(db: Db, r: Id, now: Time, retention: Time) {
    forall d | d in db.dishes && db.dishes[d].restaurant == r :: DishGoes(db, d, now, retention)
  }

  predicate AllCategoriesGo(db: Db, r: Id, now: Time, retention: Time) {
    forall c | c in db.categories && db.categories[c].restaurant == r :: CategoryGoes(db, c, now, retention)
  }

  predicate RestaurantGoes(db: Db, r: Id, now: Time, retention: Time) {
    && r in db.restaurants && db.restaurants[r].deleted
    && AllOrdersGo(db, r, now, retention) && AllDishesGo(db, r, now, retention) && AllCategoriesGo(db, r, now, retention)
  }

  predicate AllWithLogoGo(db: Db, g: Id, now: Time, retention: Time) {
    forall r | r in db.restaurants && db.restaurants[r].logo == Some(g) :: RestaurantGoes(db, r, now, retention)
  }

  predicate AllPicturedGo(db: Db, g: Id, now: Time, retention: Time) {
    forall d | d in db.dishes && db.dishes[d].image == Some(g) :: DishGoes(db, d, now, retention)
  }

  /** Uploaded more than a day ago, and nobody's logo or picture that stays. */
  predicate ImageGoes(db: Db, g: Id, now: Time, retention: Time) {
    && g in db.images && db.images[g] < now - 24 * 3_600_000_000_000
    && AllWithLogoGo(db, g, now, retention) && AllPicturedGo(db, g, now, retention)
  }

  /** Run out, or not seen for thirty days. */
  predicate SessionGoes(s: Session, now: Time) {
    s.absoluteExpires <= now || s.lastSeen < now - 30 * 24 * 3_600_000_000_000
  }

  /** Run out; a token without an expiry never does. */
  predicate TokenGoes(t: Token, now: Time) {
    t.expires.Some? && t.expires.value <= now
  }

  function ItemsGoing(db: Db, now: Time, retention: Time): set<Id> {
    set i | i in db.items && ItemGoes(db, i, now, retention)
  }

  function ModsGoing(db: Db, now: Time, retention: Time): set<Id> {
    set m | m in db.mods && ModificationGoes(db, m, now, retention)
  }

  /** The rows each step takes by its own condition. */
  function Taken(db: Db, sweep: Sweep, now: Time, retention: Time): set<Id> {
    match sweep
    case OldOrders => set o | o in db.orders && OrderGoes(db, o, now, retention)
    case OldModifications => set m | m in db.mods && ModificationFreed(db, m, now, retention)
    case OldDishes => set d | d in db.dishes && DishGoes(db, d, now, retention)
    case OldCategories => set c | c in db.categories && CategoryGoes(db, c, now, retention)
    case OldRestaurants => set r | r in db.restaurants && RestaurantGoes(db, r, now, retention)
    case OldImages => set g | g in db.images && ImageGoes(db, g, now, retention)
    case OldSessions => set s | s in db.sessions && SessionGoes(db.sessions[s], now)
    case OldTokens => set t | t in db.tokens && TokenGoes(db.tokens[t], now)
  }

  /** What step k finds of each table: all of it before its turn, the rest afterwards. */
  ghost predicate AtStep(db: Db, t: Db, k: nat, now: Time, retention: Time) {
    && t.users == db.users
    && t.orders == (if k > 0 then db.orders - Taken(db, OldOrders, now, retention) else db.orders)
    && t.items == (if k > 0 then db.items - ItemsGoing(db, now, retention) else db.items)
    && t.snaps.Keys == (if k > 0 then db.snaps.Keys - SnapsOf(db, ItemsGoing(db, now, retention)) else db.snaps.Keys)
    && (k <= 2 ==> forall s | s in t.snaps :: t.snaps[s] == db.snaps[s])
    && t.mods == (if k > 2 then db.mods - ModsGoing(db, now, retention)
                  else if k > 1 then db.mods - Taken(db, OldModifications, now, retention)
                  else db.mods)
    && t.dishes == (if k > 2 then db.dishes - Taken(db, OldDishes, now, retention) else db.dishes)
    && t.categories == (if k > 3 then db.categories - Taken(db, OldCategories, now, retention) else db.categories)
    && t.restaurants == (if k > 4 then db.restaurants - Taken(db, OldRestaurants, now, retention) else db.restaurants)
    && t.images == (if k > 5 then db.images - Taken(db, OldImages, now, retention) else db.images)
    && t.sessions == (if k > 6 then db.sessions - Taken(db, OldSessions, now, retention) else db.sessions)
    && t.tokens == (if k > 7 then db.tokens - Taken(db, OldTokens, now, retention) else db.tokens)
  }

  lemma OrdersAtTheirTurn(db: Db, now: Time, retention: Time)
    requires Integrity(db)
    ensures Doomed(db, OldOrders, now, retention) == Taken(db, OldOrders, now, retention)
    ensures AtStep(db, Swept(db, OldOrders, now, retention), 1, now, retention)
  {
    assert ItemsOf(db, Taken(db, OldOrders, now, retention)) == ItemsGoing(db, now, retention);
  }

  lemma ModificationsAtTheirTurn(db: Db, t: Db, now: Time, retention: Time)
    requires Integrity(db) && AtStep(db, t, 1, now, retention)
    ensures Doomed(t, OldModifications, now, retention) == Taken(db, OldModifications, now, retention)
    ensures AtStep(db, Swept(t, OldModifications, now, retention), 2, now, retention)
  {
    SweepIsPlain(t, OldModifications, now, retention);
    SnapshottedStill(db, t, now, retention);
    hide Integrity, Swept, ItemGoes, ItemsGoing, SnapsOf, Snapshotted;
    assert Doomed(t, OldModifications, now, retention) == Taken(db, OldModifications, now, retention);
    hide Doomed, Taken;
  }

  /** Chosen for an item that stays. */
  predicate ChosenStill(db: Db, m: Id, now: Time, retention: Time) {
    exists s :: s in db.snaps && db.snaps[s].mod == Some(m) && !ItemGoes(db, db.snaps[s].item, now, retention)
  }

  lemma SnapshottedStill(db: Db, t: Db, now: Time, retention: Time)
    requires Integrity(db) && AtStep(db, t, 1, now, retention)
    ensures forall m: Id :: Snapshotted(t, m) <==> ChosenStill(db, m, now, retention)
  {
    hide OrderGoes;
    forall m: Id
      ensures Snapshotted(t, m) <==> ChosenStill(db, m, now, retention)
    {
      if s :| s in db.snaps && db.snaps[s].mod == Some(m) && !ItemGoes(db, db.snaps[s].item, now, retention) {
        assert s in t.snaps;
      }
    }
  }

  lemma DishesAtTheirTurn(db: Db, t: Db, now: Time, retention: Time)
    requires Integrity(db) && AtStep(db, t, 2, now, retention)
    ensures Doomed(t, OldDishes, now, retention) == Taken(db, OldDishes, now, retention)
    ensures AtStep(db, Swept(t, OldDishes, now, retention), 3, now, retention)
  {
    OrderedStill(db, t, now, retention);
    hide Integrity, ItemGoes, ModsGoing, ItemsGoing, ModsOf, SnapsOf, Ordered;
    assert Doomed(t, OldDishes, now, retention) == Taken(db, OldDishes, now, retention);
    ModsWithTheirDishes(db, t, now, retention);
    hide Doomed, Taken;
  }

  lemma OrderedStill(db: Db, t: Db, now: Time, retention: Time)
    requires AtStep(db, t, 2, now, retention)
    ensures forall d :: Ordered(t, d) <==> exists i :: i in db.items && db.items[i].dish == d && !ItemGoes(db, i, now, retention)
  {
    hide ItemGoes, DishGoes, ModsGoing, SnapsOf;
    forall d
      ensures Ordered(t, d) <==> exists i :: i in db.items && db.items[i].dish == d && !ItemGoes(db, i, now, retention)
    {
      if i :| i in db.items && db.items[i].dish == d && !ItemGoes(db, i, now, retention) {
        assert i in t.items;
      }
    }
  }

  lemma ModsWithTheirDishes(db: Db, t: Db, now: Time, retention: Time)
    requires Integrity(db) && AtStep(db, t, 2, now, retention)
    ensures t.mods - ModsOf(t, Taken(db, OldDishes, now, retention)) == db.mods - ModsGoing(db, now, retention)
  {
    hide ModificationFreed, DishGoes, ItemsGoing, SnapsOf;
    var gone := Taken(db, OldDishes, now, retention);
    var freed := Taken(db, OldModifications, now, retention);
    assert t.mods == db.mods - freed;
    assert (t.mods - ModsOf(t, gone)).Keys == (db.mods - ModsGoing(db, now, retention)).Keys;
  }

  lemma CategoriesAtTheirTurn(db: Db, t: Db, now: Time, retention: Time)
    requires AtStep(db, t, 3, now, retention)
    ensures Doomed(t, OldCategories, now, retention) == Taken(db, OldCategories, now, retention)
    ensures AtStep(db, Swept(t, OldCategories, now, retention), 4, now, retention)
  {
    SweepIsPlain(t, OldCategories, now, retention);
    hide Swept, DishGoes, ModsGoing, ItemsGoing, SnapsOf;
    forall c | c in db.categories
      ensures Filed(t, c) <==> exists d :: d in db.dishes && db.dishes[d].category == Some(c) && !DishGoes(db, d, now, retention)
    {
      if d :| d in db.dishes && db.dishes[d].category == Some(c) && !DishGoes(db, d, now, retention) {
        assert d in t.dishes;
      }
    }
    assert Doomed(t, OldCategories, now, retention) == Taken(db, OldCategories, now, retention);
    hide Doomed, Taken;
  }

  lemma RestaurantsAtTheirTurn(db: Db, t: Db, now: Time, retention: Time)
    requires AtStep(db, t, 4, now, retention)
    ensures Doomed(t, OldRestaurants, now, retention) == Taken(db, OldRestaurants, now, retention)
    ensures AtStep(db, Swept(t, OldRestaurants, now, retention), 5, now, retention)
  {
    SweepIsPlain(t, OldRestaurants, now, retention);
    hide Swept, HasOrders, HasDishes, HasCategories, AllOrdersGo, AllDishesGo, AllCategoriesGo, OrderGoes, DishGoes,
      CategoryGoes, ModsGoing, ItemsGoing, SnapsOf;
    forall r
      ensures HasOrders(t, r) <==> !AllOrdersGo(db, r, now, retention)
      ensures HasDishes(t, r) <==> !AllDishesGo(db, r, now, retention)
      ensures HasCategories(t, r) <==> !AllCategoriesGo(db, r, now, retention)
    {
      RestaurantPinned(db, t, r, now, retention);
    }
    assert Doomed(t, OldRestaurants, now, retention) == Taken(db, OldRestaurants, now, retention);
    hide Doomed, Taken;
  }

  lemma RestaurantPinned(db: Db, t: Db, r: Id, now: Time, retention: Time)
    requires AtStep(db, t, 4, now, retention)
    ensures HasOrders(t, r) <==> !AllOrdersGo(db, r, now, retention)
    ensures HasDishes(t, r) <==> !AllDishesGo(db, r, now, retention)
    ensures HasCategories(t, r) <==> !AllCategoriesGo(db, r, now, retention)
  {
    hide OrderGoes, DishGoes, CategoryGoes, ModsGoing, ItemsGoing, SnapsOf;
    if o :| o in db.orders && db.orders[o].restaurant == r && !OrderGoes(db, o, now, retention) { assert o in t.orders; }
    if d :| d in db.dishes && db.dishes[d].restaurant == r && !DishGoes(db, d, now, retention) { assert d in t.dishes; }
    if c :| c in db.categories && db.categories[c].restaurant == r && !CategoryGoes(db, c, now, retention) {
      assert c in t.categories;
    }
  }

  lemma ImagesAtTheirTurn(db: Db, t: Db, now: Time, retention: Time)
    requires AtStep(db, t, 5, now, retention)
    ensures Doomed(t, OldImages, now, retention) == Taken(db, OldImages, now, retention)
    ensures AtStep(db, Swept(t, OldImages, now, retention), 6, now, retention)
  {
    SweepIsPlain(t, OldImages, now, retention);
    hide Swept, RestaurantGoes, DishGoes, ModsGoing, ItemsGoing, SnapsOf;
    forall g: Id
      ensures IsLogo(t, g) <==> !AllWithLogoGo(db, g, now, retention)
      ensures IsPicture(t, g) <==> !AllPicturedGo(db, g, now, retention)
    {
      if r :| r in db.restaurants && db.restaurants[r].logo == Some(g) && !RestaurantGoes(db, r, now, retention) {
        assert r in t.restaurants;
      }
      if d :| d in db.dishes && db.dishes[d].image == Some(g) && !DishGoes(db, d, now, retention) { assert d in t.dishes; }
    }
    assert Doomed(t, OldImages, now, retention) == Taken(db, OldImages, now, retention);
    hide Doomed, Taken;
  }

  lemma LoginsAtTheirTurn(db: Db, t: Db, k: nat, now: Time, retention: Time)
    requires 6 <= k < |SWEEPS| && AtStep(db, t, k, now, retention)
    ensures Doomed(t, SWEEPS[k], now, retention) == Taken(db, SWEEPS[k], now, retention)
    ensures AtStep(db, Swept(t, SWEEPS[k], now, retention), k + 1, now, retention)
  {
    hide OrderGoes, ModificationFreed, DishGoes, CategoryGoes, RestaurantGoes, ImageGoes, ModsGoing, ItemsGoing, SnapsOf;
  }

  /** Step by step the pass takes just these rows, and leaves every other as it was. */
  lemma {:induction false} PassTakesExactly(db: Db, k: nat, now: Time, retention: Time)
    requires Integrity(db) && k <= |SWEEPS|
    ensures AtStep(db, AfterSweeps(db, k, now, retention), k, now, retention)
    ensures k < |SWEEPS| ==>
      Doomed(AfterSweeps(db, k, now, retention), SWEEPS[k], now, retention) == Taken(db, SWEEPS[k], now, retention)
  {
    if k > 0 {
      PassTakesExactly(db, k - 1, now, retention);
      StepTakesExactly(db, AfterSweeps(db, k - 1, now, retention), k - 1, now, retention);
    } else {
      NothingTakenYet(db, now, retention);
    }
    if k < |SWEEPS| {
      hide AtStep, Integrity, Swept, Doomed, Taken;
      StepTakesExactly(db, AfterSweeps(db, k, now, retention), k, now, retention);
    }
  }

  lemma NothingTakenYet(db: Db, now: Time, retention: Time)
    ensures AtStep(db, db, 0, now, retention)
  {
    hide Taken, ModsGoing, ItemsGoing, SnapsOf;
  }

  lemma StepTakesExactly(db: Db, t: Db, k: nat, now: Time, retention: Time)
    requires Integrity(db) && k < |SWEEPS| && AtStep(db, t, k, now, retention) && (k == 0 ==> t == db)
    ensures Doomed(t, SWEEPS[k], now, retention) == Taken(db, SWEEPS[k], now, retention)
    ensures AtStep(db, Swept(t, SWEEPS[k], now, retention), k + 1, now, retention)
  {
    hide Integrity, AtStep, Doomed, Taken, Swept;
    if k == 0 { OrdersAtTheirTurn(db, now, retention); }
    else if k == 1 { ModificationsAtTheirTurn(db, t, now, retention); }
    else if k == 2 { DishesAtTheirTurn(db, t, now, retention); }
    else if k == 3 { CategoriesAtTheirTurn(db, t, now, retention); }
    else if k == 4 { RestaurantsAtTheirTurn(db, t, now, retention); }
    else if k == 5 { ImagesAtTheirTurn(db, t, now, retention); }
    else { LoginsAtTheirTurn(db, t, k, now, retention); }
  }

  // ----- what a pass never takes -----

  /** Living restaurants, categories and dishes are as they were. */
  predicate LivingStay(db: Db, db': Db) {
    && (forall r | r in db.restaurants && !db.restaurants[r].deleted :: r in db'.restaurants && db'.restaurants[r] == db.restaurants[r])
    && (forall c | c in db.categories && !db.categories[c].deleted :: c in db'.categories && db'.categories[c] == db.categories[c])
    && (forall d | d in db.dishes && !db.dishes[d].deleted :: d in db'.dishes && db'.dishes[d] == db.dishes[d])
  }

  /**
   * No living restaurant, category or dish is ever removed or changed. Of the menu's four tables
   * only modifications differ: ON DELETE CASCADE takes a living one exactly when its dish is
   * soft-deleted and in no order that stays.
   */
  lemma PassTakesNoLivingRow(db: Db, now: Time, retention: Time, m: Id)
    requires Integrity(db)
    ensures LivingStay(db, CleanedUp(db, now, retention))
    ensures m in db.mods && !db.mods[m].deleted ==>
      && (m !in CleanedUp(db, now, retention).mods <==> DishGoes(db, db.mods[m].dish, now, retention))
      && (m in CleanedUp(db, now, retention).mods ==> CleanedUp(db, now, retention).mods[m] == db.mods[m])
  {
    PassTakesExactly(db, |SWEEPS|, now, retention);
    hide Integrity, AfterSweeps;
  }

  const PLAIN_TERMS := Terms("EUR", None, None)

  /** A restaurant whose one dish is off the menu while its one modification is not. */
  const OFF_THE_MENU := Db(
    map[PLACEHOLDER := User(false)], map[], map[1 := Restaurant(PLAIN_TERMS, None, false)], map[],
    map[5 := Dish(1, None, None, "Lahmacun", 500, true, true)],
    map[6 := Modification(5, "no onions", 0, false)], map[], map[], map[], map[], map[])

  /** So "no living menu row is removed" is not quite what the schema gives. */
  lemma ALivingModificationGoes(now: Time, retention: Time)
    ensures Integrity(OFF_THE_MENU) && !OFF_THE_MENU.mods[6].deleted
    ensures 6 !in Swept(OFF_THE_MENU, OldDishes, now, retention).mods
  {
    assert 5 in Doomed(OFF_THE_MENU, OldDishes, now, retention);
    assert 6 in ModsOf(OFF_THE_MENU, Doomed(OFF_THE_MENU, OldDishes, now, retention));
  }

  // ----- the dry run -----

  /** The rows a sweep would take if nothing referred to them. */
  function Candidates(db: Db, sweep: Sweep, now: Time, retention: Time): set<Id> {
    match sweep
    case OldModifications => set m | m in db.mods && db.mods[m].deleted
    case OldDishes => set d | d in db.dishes && db.dishes[d].deleted
    case OldCategories => set c | c in db.categories && db.categories[c].deleted
    case OldRestaurants => set r | r in db.restaurants && db.restaurants[r].deleted
    case OldImages => set g | g in db.images && db.images[g] < now - IMAGE_GRACE
    case _ => Doomed(db, sweep, now, retention)
  }

  /** The NOT EXISTS clauses, unnegated. */
  predicate Pinned(db: Db, sweep: Sweep, x: Id) {
    match sweep
    case OldModifications => Snapshotted(db, x)
    case OldDishes => Ordered(db, x)
    case OldCategories => Filed(db, x)
    case OldRestaurants => HasOrders(db, x) || HasDishes(db, x) || HasCategories(db, x)
    case OldImages => IsLogo(db, x) || IsPicture(db, x)
    case _ => false
  }

  lemma DoomedIsUnpinned(db: Db, sweep: Sweep, now: Time, retention: Time)
    ensures Doomed(db, sweep, now, retention)
            == set x | x in Candidates(db, sweep, now, retention) && !Pinned(db, sweep, x)
  {}

  lemma TakenAreCandidates(db: Db, sweep: Sweep, now: Time, retention: Time)
    ensures Taken(db, sweep, now, retention) <= Candidates(db, sweep, now, retention)
  {
    hide ItemGoes;
  }

  /** What nothing refers to now, nothing refers to at its turn. */
  lemma DoomedAreTaken(db: Db, sweep: Sweep, now: Time, retention: Time)
    ensures Doomed(db, sweep, now, retention) <= Taken(db, sweep, now, retention)
  {
    hide ItemGoes, DishGoes, CategoryGoes, RestaurantGoes;
    match sweep
    case OldModifications =>
      forall m, s | m in Doomed(db, sweep, now, retention) && s in db.snaps ensures db.snaps[s].mod != Some(m) {}
    case OldDishes => DoomedDishes(db, now, retention);
    case OldCategories => DoomedCategories(db, now, retention);
    case OldRestaurants => DoomedRestaurants(db, now, retention);
    case OldImages => DoomedImages(db, now, retention);
    case _ => LeavesAreTaken(db, sweep, now, retention);
  }

  lemma LeavesAreTaken(db: Db, sweep: Sweep, now: Time, retention: Time)
    requires sweep == OldOrders || sweep == OldSessions || sweep == OldTokens
    ensures Doomed(db, sweep, now, retention) == Taken(db, sweep, now, retention)
  {}

  lemma DoomedImages(db: Db, now: Time, retention: Time)
    ensures Doomed(db, OldImages, now, retention) <= Taken(db, OldImages, now, retention)
  {
    hide DishGoes, RestaurantGoes;
    forall g | g in Doomed(db, OldImages, now, retention)
      ensures forall r | r in db.restaurants :: db.restaurants[r].logo != Some(g)
      ensures forall d | d in db.dishes :: db.dishes[d].image != Some(g)
    {}
  }

  lemma DoomedDishes(db: Db, now: Time, retention: Time)
    ensures Doomed(db, OldDishes, now, retention) <= Taken(db, OldDishes, now, retention)
  {
    hide ItemGoes;
    forall d, i | d in Doomed(db, OldDishes, now, retention) && i in db.items ensures db.items[i].dish != d {}
  }

  lemma DoomedCategories(db: Db, now: Time, retention: Time)
    ensures Doomed(db, OldCategories, now, retention) <= Taken(db, OldCategories, now, retention)
  {
    hide DishGoes;
    forall c, d | c in Doomed(db, OldCategories, now, retention) && d in db.dishes ensures db.dishes[d].category != Some(c) {}
  }

  lemma DoomedRestaurants(db: Db, now: Time, retention: Time)
    ensures Doomed(db, OldRestaurants, now, retention) <= Taken(db, OldRestaurants, now, retention)
  {
    hide OrderGoes, DishGoes, CategoryGoes;
    forall r | r in Doomed(db, OldRestaurants, now, retention)
      ensures forall o | o in db.orders :: db.orders[o].restaurant != r
      ensures forall d | d in db.dishes :: db.dishes[d].restaurant != r
      ensures forall c | c in db.categories :: db.categories[c].restaurant != r
    {}
  }

  /**
   * A dry run never reports more than the real run removes, and reports exactly as much if and only
   * if the pass takes no row of that step that something refers to now.
   */
  lemma DryRunCounts(db: Db, k: nat, now: Time, retention: Time)
    requires Integrity(db) && k < |SWEEPS|
    ensures RealCount(db, k, now, retention) == |Taken(db, SWEEPS[k], now, retention)|
    ensures DryCount(db, k, now, retention) <= RealCount(db, k, now, retention)
    ensures DryCount(db, k, now, retention) == RealCount(db, k, now, retention)
            <==> forall x | Pinned(db, SWEEPS[k], x) :: x !in Taken(db, SWEEPS[k], now, retention)
  {
    hide Integrity, AfterSweeps, Doomed, Candidates, Pinned, Taken, AtStep;
    PassTakesExactly(db, k, now, retention);
    DoomedIsUnpinned(db, SWEEPS[k], now, retention);
    TakenAreCandidates(db, SWEEPS[k], now, retention);
    DoomedAreTaken(db, SWEEPS[k], now, retention);
    var dry := Doomed(db, SWEEPS[k], now, retention);
    var run := Taken(db, SWEEPS[k], now, retention);
    SubsetSize(dry, run);
    if |dry| != |run| {
      var x :| x in run - dry;
      assert Pinned(db, SWEEPS[k], x);
    }
  }

  lemma SubsetSize<T>(a: set<T>, b: set<T>)
    requires a <= b
    ensures |a| <= |b|
    ensures |a| == |b| <==> a == b
    ensures |a| != |b| ==> b - a != {}
  {
    assert b == a + (b - a);
  }

  /** Orders, sessions and tokens are never pinned, so their counts always agree. */
  lemma DryRunIsExactForLeaves(db: Db, now: Time, retention: Time)
    requires Integrity(db)
    ensures DryCount(db, 0, now, retention) == RealCount(db, 0, now, retention)
    ensures DryCount(db, 6, now, retention) == RealCount(db, 6, now, retention)
    ensures DryCount(db, 7, now, retention) == RealCount(db, 7, now, retention)
  {
    hide Integrity, AfterSweeps, Doomed, Candidates;
    DryRunCounts(db, 0, now, retention);
    DryRunCounts(db, 6, now, retention);
    DryRunCounts(db, 7, now, retention);
  }

  /** An old order holding the last item of a dish that has left the menu. */
  const LAST_ORDER := Db(
    map[PLACEHOLDER := User(false)], map[], map[1 := Restaurant(PLAIN_TERMS, None, false)], map[],
    map[5 := Dish(1, None, None, "Lahmacun", 500, true, true)], map[],
    map[3 := Order(PLACEHOLDER, 1, Pickup, 20, 10, None, None, PLAIN_TERMS, true, false, false)],
    map[9 := OrderItem(3, PLACEHOLDER, 5, 1, "Lahmacun", 500, "", false)], map[], map[], map[])

  lemma LastOrderBefore(now: Time)
    requires now > 10
    ensures Integrity(LAST_ORDER)
    ensures Doomed(LAST_ORDER, OldDishes, now, 0) == {}
    ensures Doomed(LAST_ORDER, OldOrders, now, 0) == {3}
  {
    assert 9 in LAST_ORDER.items && LAST_ORDER.items[9].dish == 5;
    assert Ordered(LAST_ORDER, 5);
  }

  lemma LastOrderGone(now: Time)
    requires now > 10
    ensures var db1 := Swept(LAST_ORDER, OldOrders, now, 0);
            db1.items == map[] && db1.dishes == LAST_ORDER.dishes && db1.mods == map[]
  {
    LastOrderBefore(now);
    hide Doomed;
  }

  lemma NoModificationsNoChange(db: Db, now: Time)
    requires db.mods == map[]
    ensures Swept(db, OldModifications, now, 0).items == db.items
    ensures Swept(db, OldModifications, now, 0).dishes == db.dishes
  {}

  /** The comment's "the report matches the run" is not what the code gives: here 0 is reported, 1 removed. */
  lemma DryRunMayFallShort(now: Time)
    requires now > 10
    ensures Integrity(LAST_ORDER)
    ensures DryCount(LAST_ORDER, 2, now, 0) == 0 && RealCount(LAST_ORDER, 2, now, 0) == 1
  {
    LastOrderBefore(now);
    LastOrderGone(now);
    var db1 := Swept(LAST_ORDER, OldOrders, now, 0);
    NoModificationsNoChange(db1, now);
    var db2 := Swept(db1, OldModifications, now, 0);
    assert Doomed(db2, OldDishes, now, 0) == {5} by { hide Swept; }
    hide Swept, Doomed;
    assert AfterSweeps(LAST_ORDER, 1, now, 0) == db1;
    assert AfterSweeps(LAST_ORDER, 2, now, 0) == db2;
  }

  /** The order of the steps matters: dishes before orders would leave that dish for the next night. */
  lemma DishesBeforeOrdersLeavesWork(now: Time)
    requires now > 10
    ensures var swapped := Swept(Swept(LAST_ORDER, OldDishes, now, 0), OldOrders, now, 0);
            5 in Doomed(swapped, OldDishes, now, 0)
  {
    LastOrderBefore(now);
    NothingDoomedNothingChanges(LAST_ORDER, OldDishes, now, 0);
    LastOrderGone(now);
    hide Swept;
  }
}
