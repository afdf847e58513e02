/**
 * The tables of migrations/000001 to 000017 that hold orders and menus, as rows in maps, with the
 * constraints the schema declares on them. Identifiers stand for UUIDs and times for timestamps.
 */
module Schema {
  import opened Prelude

  type Id = nat
  type Time = int

  /** The deleted-user placeholder, whose id the migrations fix (000002). */
  const PLACEHOLDER: Id := 0

  datatype Fulfilment = Pickup | Delivery

  /** What an order copies from its restaurant when the restaurant is chosen (F5.11). */
  datatype Terms = Terms(currency: string, minOrder: Option<int>, deliveryFee: Option<int>)

  datatype User = User(admin: bool)
  datatype Restaurant = Restaurant(terms: Terms, logo: Option<Id>, deleted: bool)
  datatype Category = Category(restaurant: Id, name: string, deleted: bool)
  datatype Dish = Dish(
    restaurant: Id, category: Option<Id>, image: Option<Id>,
    name: string, price: int, available: bool, deleted: bool)
  datatype Modification = Modification(dish: Id, name: string, delta: int, deleted: bool)
  datatype Order = Order(
    creator: Id, restaurant: Id, fulfilment: Fulfilment, fulfilmentAt: Time, deadlineAt: Time,
    collector: Option<Id>, pickup: Option<Id>, terms: Terms,
    jobsDrawn: bool, collectorDrawn: bool, pickupDrawn: bool)
  datatype OrderItem = OrderItem(
    order: Id, user: Id, dish: Id, quantity: int,
    name: string, unitPrice: int, note: string, paid: bool)
  datatype Snapshot = Snapshot(item: Id, mod: Option<Id>, name: string, delta: int)
  datatype Session = Session(user: Id, absoluteExpires: Time, lastSeen: Time)
  datatype Token = Token(user: Id, expires: Option<Time>)

  datatype Db = Db(
    users: map<Id, User>,
    images: map<Id, Time>,
    restaurants: map<Id, Restaurant>,
    categories: map<Id, Category>,
    dishes: map<Id, Dish>,
    mods: map<Id, Modification>,
    orders: map<Id, Order>,
    items: map<Id, OrderItem>,
    snaps: map<Id, Snapshot>,
    sessions: map<Id, Session>,
    tokens: map<Id, Token>)

  /** F5.5: an order is active while now is before its deadline. */
  predicate Active(o: Order, now: Time) { now < o.deadlineAt }

  predicate RefersTo<V>(ref: Option<Id>, table: map<Id, V>) {
    ref.Some? ==> ref.value in table
  }

  // ----- the declared constraints, table by table -----

  predicate RestaurantsOk(db: Db) {
    forall r | r in db.restaurants :: RefersTo(db.restaurants[r].logo, db.images)
  }

  predicate CategoriesOk(db: Db) {
    forall c | c in db.categories :: db.categories[c].restaurant in db.restaurants
  }

  /** The category reference covers the restaurant too (migration 000014). */
  predicate DishesOk(db: Db) {
    forall d | d in db.dishes ::
      && db.dishes[d].restaurant in db.restaurants
      && RefersTo(db.dishes[d].image, db.images)
      && (db.dishes[d].category.Some? ==>
            && db.dishes[d].category.value in db.categories
            && db.categories[db.dishes[d].category.value].restaurant == db.dishes[d].restaurant)
  }

  predicate ModsOk(db: Db) {
    forall m | m in db.mods :: db.mods[m].dish in db.dishes
  }

  /** food_order_deadline_before_fulfilment is a CHECK constraint (000007:39). */
  predicate OrdersOk(db: Db) {
    forall o | o in db.orders ::
      && db.orders[o].creator in db.users
      && db.orders[o].restaurant in db.restaurants
      && RefersTo(db.orders[o].collector, db.users)
      && RefersTo(db.orders[o].pickup, db.users)
      && db.orders[o].deadlineAt < db.orders[o].fulfilmentAt
  }

  predicate ItemsOk(db: Db) {
    forall i | i in db.items ::
      && db.items[i].order in db.orders
      && db.items[i].user in db.users
      && db.items[i].dish in db.dishes
      && db.items[i].quantity >= 1
  }

  predicate SnapsOk(db: Db) {
    forall s | s in db.snaps ::
      db.snaps[s].item in db.items && RefersTo(db.snaps[s].mod, db.mods)
  }

  predicate LoginsOk(db: Db) {
    && (forall s | s in db.sessions :: db.sessions[s].user in db.users)
    && (forall t | t in db.tokens :: db.tokens[t].user in db.users)
  }

  /** Every foreign key resolves and every CHECK modelled here holds. */
  predicate Integrity(db: Db) {
    && PLACEHOLDER in db.users
    && !db.users[PLACEHOLDER].admin
    && RestaurantsOk(db) && CategoriesOk(db) && DishesOk(db) && ModsOk(db)
    && OrdersOk(db) && ItemsOk(db) && SnapsOk(db) && LoginsOk(db)
  }

  // ----- what the code adds to the constraints -----

  /** Every item is a dish of the restaurant its order is placed at (F5.8, F6.2). */
  predicate AtItsRestaurant(db: Db) {
    forall i | i in db.items ::
      && db.items[i].order in db.orders
      && db.items[i].dish in db.dishes
      && db.dishes[db.items[i].dish].restaurant == db.orders[db.items[i].order].restaurant
  }

  /** Every snapshot still names a modification of the very dish it was chosen for. */
  predicate OfItsDish(db: Db) {
    forall s | s in db.snaps ::
      && db.snaps[s].item in db.items
      && db.snaps[s].mod.Some?
      && db.snaps[s].mod.value in db.mods
      && db.mods[db.snaps[s].mod.value].dish == db.items[db.snaps[s].item].dish
  }

  predicate Consistent(db: Db) {
    Integrity(db) && AtItsRestaurant(db) && OfItsDish(db)
  }
}
