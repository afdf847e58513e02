/**
 * The statements and transactions of internal/db that write, each as one atomic step on the tables.
 * What a statement leaves open -- the ids it mints, the people a draw picks -- is an argument.
 */
module Sql {
  import opened Prelude
  import opened Schema

  const HOUR: Time := 3_600_000_000_000

  /** The named errors of internal/db/errors.go; Refused is any constraint they do not name. */
  datatype DbError =
    | NotFound | UnknownReference | RestaurantLocked | StillReferenced | WrongRestaurant
    | ItemUnavailable | ItemNotServedThen | ModificationWrongItem | Refused

  /** None leaves a column alone; Some(None) clears it. */
  datatype OrderUpdate = OrderUpdate(
    restaurant: Option<Id>, fulfilment: Option<Fulfilment>,
    fulfilmentAt: Option<Time>, deadlineAt: Option<Time>,
    collector: Option<Option<Id>>, pickup: Option<Option<Id>>)

  const NO_UPDATE := OrderUpdate(None, None, None, None, None, None)

  datatype DishUpdate = DishUpdate(
    category: Option<Option<Id>>, image: Option<Option<Id>>,
    name: Option<string>, price: Option<int>, available: Option<bool>)

  /** The statements of one cleanup run, in the order of internal/db/cleanup.go. */
  datatype Sweep =
    | OldOrders | OldModifications | OldDishes | OldCategories
    | OldRestaurants | OldImages | OldSessions | OldTokens

  const SWEEPS: seq<Sweep> :=
    [OldOrders, OldModifications, OldDishes, OldCategories,
     OldRestaurants, OldImages, OldSessions, OldTokens]

  datatype Stmt =
    | Nothing
    | CreateOrder(id: Id, creator: Id, at: Id, fulfilment: Fulfilment,
                  fulfilmentAt: Time, deadlineAt: Time, collector: Option<Id>, pickup: Option<Id>)
    | UpdateOrder(id: Id, update: OrderUpdate)
    | DeleteOrder(id: Id)
    | AddOrderItem(id: Id, order: Id, user: Id, dish: Id, quantity: int, note: string,
                   chosen: seq<Id>, served: bool, minted: map<Id, Id>)
    | UpdateOrderItem(id: Id, newQuantity: Option<int>, newNote: Option<string>,
                      newChosen: Option<seq<Id>>, minted: map<Id, Id>)
    | DeleteOrderItem(id: Id)
    | SetOrderItemPaid(id: Id, paid: bool)
    | DeleteAccount(user: Id, now: Time)
    | DrawJobs(now: Time, locked: set<Id>, picks: map<Id, Id>)
    | Clean(sweep: Sweep, now: Time, retention: Time)
    | CreateUser(id: Id)
    | CreateImage(id: Id, now: Time)
    | CreateRestaurant(id: Id, terms: Terms, logo: Option<Id>)
    | UpdateRestaurant(id: Id, newTerms: Option<Terms>, newLogo: Option<Option<Id>>)
    | SoftDeleteRestaurant(id: Id)
    | HardDeleteRestaurant(id: Id)
    | CreateCategory(id: Id, at: Id, name: string)
    | SoftDeleteCategory(id: Id)
    | CreateMenuItem(id: Id, row: Dish)
    | UpdateMenuItem(id: Id, change: DishUpdate)
    | SoftDeleteMenuItem(id: Id)
    | CreateModification(id: Id, dish: Id, name: string, delta: int)
    | UpdateModification(id: Id, newName: Option<string>, newDelta: Option<int>)
    | SoftDeleteModification(id: Id)

  // ----- what refers to what -----

  predicate HasItems(db: Db, o: Id) { exists i :: i in db.items && db.items[i].order == o }

  predicate HasOrders(db: Db, r: Id) { exists o :: o in db.orders && db.orders[o].restaurant == r }

  predicate HasDishes(db: Db, r: Id) { exists d :: d in db.dishes && db.dishes[d].restaurant == r }

  predicate HasCategories(db: Db, r: Id) { exists c :: c in db.categories && db.categories[c].restaurant == r }

  predicate Ordered(db: Db, d: Id) { exists i :: i in db.items && db.items[i].dish == d }

  predicate Snapshotted(db: Db, m: Id) { exists s :: s in db.snaps && db.snaps[s].mod == Some(m) }

  predicate Filed(db: Db, c: Id) { exists d :: d in db.dishes && db.dishes[d].category == Some(c) }

  predicate IsLogo(db: Db, g: Id) { exists r :: r in db.restaurants && db.restaurants[r].logo == Some(g) }

  predicate IsPicture(db: Db, g: Id) { exists d :: d in db.dishes && db.dishes[d].image == Some(g) }

  function ItemsOf(db: Db, orders: set<Id>): set<Id> {
    set i | i in db.items && db.items[i].order in orders
  }

  function SnapsOf(db: Db, items: set<Id>): set<Id> {
    set s | s in db.snaps && db.snaps[s].item in items
  }

  function ModsOf(db: Db, dishes: set<Id>): set<Id> {
    set m | m in db.mods && db.mods[m].dish in dishes
  }

  function DishesOf(db: Db, restaurants: set<Id>): set<Id> {
    set d | d in db.dishes && db.dishes[d].restaurant in restaurants
  }

  function CategoriesOf(db: Db, restaurants: set<Id>): set<Id> {
    set c | c in db.categories && db.categories[c].restaurant in restaurants
  }

  // ----- deleting rows, with what the foreign keys do about it -----

  /** ON DELETE SET NULL. */
  function Released(ref: Option<Id>, gone: set<Id>): Option<Id> {
    if ref.Some? && ref.value in gone then None else ref
  }

  /** order_item_modification goes with its item (000007:131). */
  function RemoveItems(db: Db, gone: set<Id>): Db {
    db.(items := db.items - gone, snaps := db.snaps - SnapsOf(db, gone))
  }

  /** order_item goes with its order (000007:75). */
  function RemoveOrders(db: Db, gone: set<Id>): Db {
    RemoveItems(db, ItemsOf(db, gone)).(orders := db.orders - gone)
  }

  /** A snapshot outlives its modification and forgets it (000007:134). */
  function RemoveMods(db: Db, gone: set<Id>): Db {
    db.(mods := db.mods - gone,
        snaps := map s | s in db.snaps :: db.snaps[s].(mod := Released(db.snaps[s].mod, gone)))
  }

  /** menu_item_modification goes with its dish (000006:90), deleted or living. */
  function RemoveDishes(db: Db, gone: set<Id>): Db {
    RemoveMods(db, ModsOf(db, gone)).(dishes := db.dishes - gone)
  }

  function RemoveCategories(db: Db, gone: set<Id>): Db {
    db.(categories := db.categories - gone,
        dishes := map d | d in db.dishes ::
                    db.dishes[d].(category := Released(db.dishes[d].category, gone)))
  }

  /** The whole menu goes with its restaurant (000006:6, 000006:36). */
  function RemoveRestaurants(db: Db, gone: set<Id>): Db {
    var db1 := RemoveDishes(db, DishesOf(db, gone));
    var db2 := RemoveCategories(db1, CategoriesOf(db1, gone));
    db2.(restaurants := db2.restaurants - gone)
  }

  function RemoveImages(db: Db, gone: set<Id>): Db {
    db.(images := db.images - gone,
        restaurants := map r | r in db.restaurants ::
                         db.restaurants[r].(logo := Released(db.restaurants[r].logo, gone)),
        dishes := map d | d in db.dishes ::
                    db.dishes[d].(image := Released(db.dishes[d].image, gone)))
  }

  /** ON DELETE SET DEFAULT hands a row to the placeholder. */
  function HandedOver(owner: Id, user: Id): Id {
    if owner == user then PLACEHOLDER else owner
  }

  /** Created orders and items pass on, jobs fall vacant, sessions and tokens go. */
  function RemoveUser(db: Db, user: Id): Db {
    db.(users := db.users - {user},
        orders := map o | o in db.orders :: db.orders[o].(
                    creator := HandedOver(db.orders[o].creator, user),
                    collector := Released(db.orders[o].collector, {user}),
                    pickup := Released(db.orders[o].pickup, {user})),
        items := map i | i in db.items ::
                   db.items[i].(user := HandedOver(db.items[i].user, user)),
        sessions := db.sessions - (set s | s in db.sessions && db.sessions[s].user == user),
        tokens := db.tokens - (set t | t in db.tokens && db.tokens[t].user == user))
  }

  // ----- orders -----

  function InsertOrder(db: Db, id: Id, creator: Id, at: Id, fulfilment: Fulfilment, fulfilmentAt: Time,
                       deadlineAt: Time, collector: Option<Id>, pickup: Option<Id>): Result<Db, DbError>
  {
    if at !in db.restaurants || db.restaurants[at].deleted then Err(NotFound)
    else if id in db.orders || creator !in db.users || !RefersTo(collector, db.users)
         || !RefersTo(pickup, db.users) || deadlineAt >= fulfilmentAt then Err(Refused)
    else Ok(db.(orders := db.orders[id := Order(
      creator, at, fulfilment, fulfilmentAt, deadlineAt, collector, pickup,
      db.restaurants[at].terms, false, false, false)]))
  }

  /** The row after the SET list; requires only what the subselects need. */
  function Patched(o: Order, u: OrderUpdate, restaurants: map<Id, Restaurant>): Order
    requires RefersTo(u.restaurant, restaurants)
  {
    o.(restaurant := Or(u.restaurant, o.restaurant),
       terms := if u.restaurant.Some? then restaurants[u.restaurant.value].terms else o.terms,
       fulfilment := Or(u.fulfilment, o.fulfilment),
       fulfilmentAt := Or(u.fulfilmentAt, o.fulfilmentAt),
       deadlineAt := Or(u.deadlineAt, o.deadlineAt),
       collector := Or(u.collector, o.collector),
       pickup := Or(u.pickup, o.pickup))
  }

  predicate NamesPeople(u: OrderUpdate, users: map<Id, User>) {
    && (u.collector.Some? ==> RefersTo(u.collector.value, users))
    && (u.pickup.Some? ==> RefersTo(u.pickup.value, users))
  }

  /** F5.8 is in the WHERE clause: a restaurant changes only while the order holds nothing. */
  function ChangeOrder(db: Db, id: Id, u: OrderUpdate): Result<Db, DbError> {
    if id !in db.orders then Err(NotFound)
    else if u == NO_UPDATE then Ok(db)
    else if u.restaurant.Some? && HasItems(db, id) then Err(RestaurantLocked)
    else if !RefersTo(u.restaurant, db.restaurants) then Err(Refused)
    else
      var row := Patched(db.orders[id], u, db.restaurants);
      if row.deadlineAt >= row.fulfilmentAt then Err(Refused)
      else if !NamesPeople(u, db.users) then Err(UnknownReference)
      else Ok(db.(orders := db.orders[id := row]))
  }

  // ----- order items -----

  /** The modifications the SELECT of insertModifications finds. */
  function Selectable(db: Db, dish: Id, chosen: seq<Id>): set<Id> {
    set m | m in chosen && m in db.mods && db.mods[m].dish == dish && !db.mods[m].deleted
  }

  /** Fresh snapshot ids, one for each modification found. */
  predicate MintedFor(db: Db, minted: map<Id, Id>, found: set<Id>) {
    && |minted| == |found|
    && (forall s | s in minted :: s !in db.snaps && minted[s] in found)
    && (forall s, t | s in minted && t in minted && minted[s] == minted[t] :: s == t)
  }

  function SnapshotRow(db: Db, item: Id, m: Id): Snapshot
    requires m in db.mods
  {
    Snapshot(item, Some(m), db.mods[m].name, db.mods[m].delta)
  }

  function SnapshotRows(db: Db, item: Id, minted: map<Id, Id>): map<Id, Snapshot>
    requires forall s | s in minted :: minted[s] in db.mods
  {
    map s | s in minted :: SnapshotRow(db, item, minted[s])
  }

  function Snapshotting(db: Db, item: Id, dish: Id, chosen: seq<Id>, minted: map<Id, Id>): Result<Db, DbError> {
    if |chosen| == 0 then Ok(db)
    else if |Selectable(db, dish, chosen)| != |chosen| then Err(ModificationWrongItem)
    else if !MintedFor(db, minted, Selectable(db, dish, chosen)) then Err(Refused)
    else Ok(db.(snaps := db.snaps + SnapshotRows(db, item, minted)))
  }

  /** The join of AddOrderItem: a living dish of the order's restaurant. */
  predicate Orderable(db: Db, order: Id, dish: Id) {
    && order in db.orders
    && dish in db.dishes
    && !db.dishes[dish].deleted
    && db.dishes[dish].restaurant == db.orders[order].restaurant
  }

  function InsertItem(db: Db, id: Id, order: Id, user: Id, dish: Id, quantity: int, note: string,
                      name: string, price: int): Result<Db, DbError>
  {
    if id in db.items || order !in db.orders || user !in db.users || dish !in db.dishes || quantity < 1
    then Err(Refused)
    else Ok(db.(items := db.items[id := OrderItem(order, user, dish, quantity, name, price, note, false)]))
  }

  function NewItem(db: Db, id: Id, order: Id, user: Id, dish: Id, quantity: int, note: string,
                   chosen: seq<Id>, served: bool, minted: map<Id, Id>): Result<Db, DbError>
  {
    if !Orderable(db, order, dish) then Err(WrongRestaurant)
    else if !db.dishes[dish].available then Err(ItemUnavailable)
    else if !served then Err(ItemNotServedThen)
    else
      match InsertItem(db, id, order, user, dish, quantity, note, db.dishes[dish].name, db.dishes[dish].price)
      case Err(e) => Err(e)
      case Ok(db1) => Snapshotting(db1, id, dish, chosen, minted)
  }

  function ChangeItem(db: Db, id: Id, quantity: Option<int>, note: Option<string>,
                      chosen: Option<seq<Id>>, minted: map<Id, Id>): Result<Db, DbError>
  {
    if id !in db.items then Err(NotFound)
    else if quantity.Some? && quantity.value < 1 then Err(Refused)
    else
      var was := db.items[id];
      var row := was.(quantity := Or(quantity, was.quantity), note := Or(note, was.note));
      var db1 := db.(items := db.items[id := row]);
      if chosen.None? then Ok(db1)
      else Snapshotting(db1.(snaps := db1.snaps - SnapsOf(db1, {id})), id, was.dish, chosen.value, minted)
  }

  function Ticked(db: Db, id: Id, paid: bool): Db
    requires id in db.items
  {
    db.(items := db.items[id := db.items[id].(paid := paid)])
  }

  // ----- accounts -----

  predicate InClosedOrder(db: Db, i: OrderItem, now: Time) {
    i.order in db.orders && !Active(db.orders[i.order], now)
  }

  /** Items in expired orders: reassign. */
  function ItemsPassedOn(db: Db, user: Id, now: Time): Db {
    db.(items := map i | i in db.items ::
      if InClosedOrder(db, db.items[i], now)
      then db.items[i].(user := HandedOver(db.items[i].user, user))
      else db.items[i])
  }

  /** The items a user has in orders that are still open. */
  function OpenItemsOf(db: Db, user: Id, now: Time): set<Id> {
    set i | i in db.items && db.items[i].user == user
            && db.items[i].order in db.orders && Active(db.orders[db.items[i].order], now)
  }

  /** Orders created by the user: reassign, active or not. */
  function OrdersPassedOn(db: Db, user: Id): Db {
    db.(orders := map o | o in db.orders ::
      db.orders[o].(creator := HandedOver(db.orders[o].creator, user)))
  }

  /** remapAndDelete; the trigger of migration 000002 protects the placeholder and the administrator. */
  function RemapAndDelete(db: Db, user: Id, now: Time): Result<Db, DbError> {
    if user !in db.users then Err(NotFound)
    else if user == PLACEHOLDER || db.users[user].admin then Err(Refused)
    else
      var db1 := ItemsPassedOn(db, user, now);
      var db2 := RemoveItems(db1, OpenItemsOf(db1, user, now));
      Ok(RemoveUser(OrdersPassedOn(db2, user), user))
  }

  // ----- the draw -----

  /** Orders the draw takes: closed, not drawn before, and not locked by another draw. */
  function Due(db: Db, now: Time, locked: set<Id>): set<Id> {
    set o | o in db.orders && o !in locked && !db.orders[o].jobsDrawn && !Active(db.orders[o], now)
  }

  /** Who may be picked: the people with an item in it, if a job is vacant. */
  function People(db: Db, o: Id): set<Id> {
    if o in db.orders && (db.orders[o].collector.None? || db.orders[o].pickup.None?)
    then set i | i in db.items && db.items[i].order == o && db.items[i].user != PLACEHOLDER :: db.items[i].user
    else {}
  }

  /** DISTINCT ON (order_id): one of its people for every due order that has any. */
  predicate LegalPicks(db: Db, due: set<Id>, picks: map<Id, Id>) {
    && picks.Keys == (set o | o in due && People(db, o) != {})
    && (forall o | o in picks :: picks[o] in People(db, o))
  }

  function Filled(job: Option<Id>, pick: Option<Id>): Option<Id> {
    if job.Some? then job else pick
  }

  function DrawnOrder(o: Order, pick: Option<Id>): Order {
    o.(jobsDrawn := true,
       collectorDrawn := o.collector.None? && pick.Some?,
       pickupDrawn := o.pickup.None? && pick.Some?,
       collector := Filled(o.collector, pick),
       pickup := Filled(o.pickup, pick))
  }

  function PickFor(picks: map<Id, Id>, o: Id): Option<Id> {
    if o in picks then Some(picks[o]) else None
  }

  function Draw(db: Db, now: Time, locked: set<Id>, picks: map<Id, Id>): Result<Db, DbError> {
    var due := Due(db, now, locked);
    if !LegalPicks(db, due, picks) then Err(Refused)
    else Ok(db.(orders := map o | o in db.orders ::
      if o in due then DrawnOrder(db.orders[o], PickFor(picks, o)) else db.orders[o]))
  }

  // ----- cleanup -----

  const IMAGE_GRACE: Time := 24 * HOUR
  const IDLE_CLEANUP_WINDOW: Time := 30 * 24 * HOUR

  /** The rows a sweep's WHERE clause selects. */
  function Doomed(db: Db, sweep: Sweep, now: Time, retention: Time): set<Id> {
    match sweep
    case OldOrders => set o | o in db.orders && db.orders[o].deadlineAt < now - retention
    case OldModifications => set m | m in db.mods && db.mods[m].deleted && !Snapshotted(db, m)
    case OldDishes => set d | d in db.dishes && db.dishes[d].deleted && !Ordered(db, d)
    case OldCategories => set c | c in db.categories && db.categories[c].deleted && !Filed(db, c)
    case OldRestaurants => set r | r in db.restaurants && db.restaurants[r].deleted
                                   && !HasOrders(db, r) && !HasDishes(db, r) && !HasCategories(db, r)
    case OldImages => set g | g in db.images && db.images[g] < now - IMAGE_GRACE
                              && !IsLogo(db, g) && !IsPicture(db, g)
    case OldSessions => set s | s in db.sessions && (db.sessions[s].absoluteExpires <= now
                                                     || db.sessions[s].lastSeen < now - IDLE_CLEANUP_WINDOW)
    case OldTokens => set t | t in db.tokens && db.tokens[t].expires.Some? && db.tokens[t].expires.value <= now
  }

  function Swept(db: Db, sweep: Sweep, now: Time, retention: Time): Db {
    var gone := Doomed(db, sweep, now, retention);
    match sweep
    case OldOrders => RemoveOrders(db, gone)
    case OldModifications => RemoveMods(db, gone)
    case OldDishes => RemoveDishes(db, gone)
    case OldCategories => RemoveCategories(db, gone)
    case OldRestaurants => RemoveRestaurants(db, gone)
    case OldImages => RemoveImages(db, gone)
    case OldSessions => db.(sessions := db.sessions - gone)
    case OldTokens => db.(tokens := db.tokens - gone)
  }

  // ----- the menu -----

  function HardDelete(db: Db, id: Id): Result<Db, DbError> {
    var db1 := RemoveOrders(db, set o | o in db.orders && db.orders[o].restaurant == id);
    if id !in db.restaurants then Err(NotFound)
    // order_item holds menu_item with RESTRICT (000007:79)
    else if exists i :: i in db1.items && db1.items[i].dish in DishesOf(db1, {id}) then Err(Refused)
    else Ok(RemoveRestaurants(db1, {id}))
  }

  predicate DishRefs(db: Db, row: Dish) {
    && row.restaurant in db.restaurants
    && RefersTo(row.image, db.images)
    && (row.category.Some? ==>
          row.category.value in db.categories && db.categories[row.category.value].restaurant == row.restaurant)
  }

  function ChangedDish(row: Dish, u: DishUpdate): Dish {
    row.(category := Or(u.category, row.category), image := Or(u.image, row.image),
         name := Or(u.name, row.name), price := Or(u.price, row.price),
         available := Or(u.available, row.available))
  }

  /** Dishes fall back into the uncategorised list. */
  function Unfiled(db: Db, category: Id): Db {
    db.(dishes := map d | d in db.dishes ::
          db.dishes[d].(category := Released(db.dishes[d].category, {category})))
  }

  function NewUser(db: Db, id: Id): Result<Db, DbError> {
    if id in db.users then Err(Refused) else Ok(db.(users := db.users[id := User(false)]))
  }

  function NewImage(db: Db, id: Id, now: Time): Result<Db, DbError> {
    if id in db.images then Err(Refused) else Ok(db.(images := db.images[id := now]))
  }

  function NewRestaurant(db: Db, id: Id, terms: Terms, logo: Option<Id>): Result<Db, DbError> {
    if id in db.restaurants then Err(Refused)
    else if !RefersTo(logo, db.images) then Err(UnknownReference)
    else Ok(db.(restaurants := db.restaurants[id := Restaurant(terms, logo, false)]))
  }

  function ChangeRestaurant(db: Db, id: Id, terms: Option<Terms>, logo: Option<Option<Id>>): Result<Db, DbError> {
    if id !in db.restaurants || db.restaurants[id].deleted then Err(NotFound)
    else
      var was := db.restaurants[id];
      var row := was.(terms := Or(terms, was.terms), logo := Or(logo, was.logo));
      if !RefersTo(row.logo, db.images) then Err(UnknownReference)
      else Ok(db.(restaurants := db.restaurants[id := row]))
  }

  /** The check and the update are one statement. */
  function BuryRestaurant(db: Db, id: Id): Result<Db, DbError> {
    if HasOrders(db, id) then Err(StillReferenced)
    else if id !in db.restaurants || db.restaurants[id].deleted then Err(NotFound)
    else Ok(db.(restaurants := db.restaurants[id := db.restaurants[id].(deleted := true)]))
  }

  function NewCategory(db: Db, id: Id, at: Id, name: string): Result<Db, DbError> {
    if at !in db.restaurants then Err(UnknownReference)
    else if id in db.categories then Err(Refused)
    else Ok(db.(categories := db.categories[id := Category(at, name, false)]))
  }

  function BuryCategory(db: Db, id: Id): Result<Db, DbError> {
    if id !in db.categories || db.categories[id].deleted then Err(NotFound)
    else
      var db1 := Unfiled(db, id);
      Ok(db1.(categories := db1.categories[id := db1.categories[id].(deleted := true)]))
  }

  function NewDish(db: Db, id: Id, row: Dish): Result<Db, DbError> {
    if !DishRefs(db, row) then Err(UnknownReference)
    else if id in db.dishes then Err(Refused)
    else Ok(db.(dishes := db.dishes[id := row.(deleted := false)]))
  }

  function ChangeDish(db: Db, id: Id, u: DishUpdate): Result<Db, DbError> {
    if id !in db.dishes || db.dishes[id].deleted then Err(NotFound)
    else if !DishRefs(db, ChangedDish(db.dishes[id], u)) then Err(UnknownReference)
    else Ok(db.(dishes := db.dishes[id := ChangedDish(db.dishes[id], u)]))
  }

  function BuryDish(db: Db, id: Id): Result<Db, DbError> {
    if id !in db.dishes || db.dishes[id].deleted then Err(NotFound)
    else Ok(db.(dishes := db.dishes[id := db.dishes[id].(deleted := true)]))
  }

  function NewModification(db: Db, id: Id, dish: Id, name: string, delta: int): Result<Db, DbError> {
    if dish !in db.dishes then Err(UnknownReference)
    else if id in db.mods then Err(Refused)
    else Ok(db.(mods := db.mods[id := Modification(dish, name, delta, false)]))
  }

  function ChangeModification(db: Db, id: Id, name: Option<string>, delta: Option<int>): Result<Db, DbError> {
    if id !in db.mods || db.mods[id].deleted then Err(NotFound)
    else
      var was := db.mods[id];
      Ok(db.(mods := db.mods[id := was.(name := Or(name, was.name), delta := Or(delta, was.delta))]))
  }

  function BuryModification(db: Db, id: Id): Result<Db, DbError> {
    if id !in db.mods || db.mods[id].deleted then Err(NotFound)
    else Ok(db.(mods := db.mods[id := db.mods[id].(deleted := true)]))
  }

  // ----- all of them -----

  function Exec(db: Db, stmt: Stmt): Result<Db, DbError> {
    match stmt
    case Nothing => Ok(db)
    case CreateOrder(id, creator, at, f, fAt, dAt, c, p) => InsertOrder(db, id, creator, at, f, fAt, dAt, c, p)
    case UpdateOrder(id, u) => ChangeOrder(db, id, u)
    case DeleteOrder(id) => if id !in db.orders then Err(NotFound) else Ok(RemoveOrders(db, {id}))
    case AddOrderItem(id, o, user, d, q, note, chosen, served, minted) =>
      NewItem(db, id, o, user, d, q, note, chosen, served, minted)
    case UpdateOrderItem(id, q, note, chosen, minted) => ChangeItem(db, id, q, note, chosen, minted)
    case DeleteOrderItem(id) => if id !in db.items then Err(NotFound) else Ok(RemoveItems(db, {id}))
    case SetOrderItemPaid(id, paid) =>
      if id !in db.items then Err(NotFound)
      else Ok(Ticked(db, id, paid))
    case DeleteAccount(user, now) => RemapAndDelete(db, user, now)
    case DrawJobs(now, locked, picks) => Draw(db, now, locked, picks)
    case Clean(sweep, now, retention) => Ok(Swept(db, sweep, now, retention))
    case CreateUser(id) => NewUser(db, id)
    case CreateImage(id, now) => NewImage(db, id, now)
    case CreateRestaurant(id, terms, logo) => NewRestaurant(db, id, terms, logo)
    case UpdateRestaurant(id, terms, logo) => ChangeRestaurant(db, id, terms, logo)
    case SoftDeleteRestaurant(id) => BuryRestaurant(db, id)
    case HardDeleteRestaurant(id) => HardDelete(db, id)
    case CreateCategory(id, at, name) => NewCategory(db, id, at, name)
    case SoftDeleteCategory(id) => BuryCategory(db, id)
    case CreateMenuItem(id, row) => NewDish(db, id, row)
    case UpdateMenuItem(id, u) => ChangeDish(db, id, u)
    case SoftDeleteMenuItem(id) => BuryDish(db, id)
    case CreateModification(id, dish, name, delta) => NewModification(db, id, dish, name, delta)
    case UpdateModification(id, name, delta) => ChangeModification(db, id, name, delta)
    case SoftDeleteModification(id) => BuryModification(db, id)
  }

  /**
   * The tables afterwards. A statement that fails changes nothing, with one exception: the WITH
   * part of SoftDeleteCategory releases the dishes even where the category was deleted before and
   * the answer is NotFound (internal/db/menu.go:149-161).
   */
  function After(db: Db, stmt: Stmt): Db {
    match Exec(db, stmt)
    case Ok(db') => db'
    case Err(_) => if stmt.SoftDeleteCategory? then Unfiled(db, stmt.id) else db
  }
}
