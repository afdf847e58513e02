/**
 * The order handlers of internal/api as decisions: what one reads from the tables, whether it
 * refuses, and the one statement it issues otherwise. Requests arrive parsed.
 */
module Handlers {
  import opened Prelude
  import opened Schema
  import opened Sql

  const MAX_ORDER_ITEM_QUANTITY := 99

  datatype Principal = Principal(id: Id, admin: bool)

  datatype Fault =
    | NotAuthenticated | NotFoundHere | NotOwner | NotOrderCreator | NotItemOwner | NotJobHolder
    | OrderClosed | LockedRestaurant | InvalidField | MissingField | DeadlineAfterFulfil
    | DeadlineInThePast | JobTaken | QuantityTooSmall | ItemWrongRestaurant | SoldOut
    | NotServedThen | WrongModification | AdminRequired | PlaceholderReadOnly | DatabaseUnavailable

  datatype Job = FetchingTheFood | CollectingTheMoney

  datatype Request =
    | CreateIt(minted: Id, at: Id, fulfilment: Fulfilment, fulfilmentAt: Time, deadlineAt: Time,
               collector: Option<Id>, pickup: Option<Id>)
    | PatchIt(order: Id, body: OrderUpdate)
    | RemoveIt(order: Id)
    | AddItem(order: Id, minted: Id, dish: Id, quantity: int, note: string,
              chosen: seq<Id>, served: bool, mintedSnaps: map<Id, Id>)
    | PatchItem(order: Id, item: Id, newQuantity: Option<int>, newNote: Option<string>,
                newChosen: Option<seq<Id>>, mintedSnaps: map<Id, Id>)
    | DeleteItem(order: Id, item: Id)
    | SetItemPaid(order: Id, item: Id, paid: Option<bool>)
    | ClaimJob(order: Id, job: Job)
    | ReleaseJob(order: Id, job: Job)
    | DeleteUser(user: Id)

  function Holder(o: Order, job: Job): Option<Id> {
    match job
    case FetchingTheFood => o.pickup
    case CollectingTheMoney => o.collector
  }

  function Assign(job: Job, holder: Option<Id>): OrderUpdate {
    match job
    case FetchingTheFood => NO_UPDATE.(pickup := Some(holder))
    case CollectingTheMoney => NO_UPDATE.(collector := Some(holder))
  }

  /** checkDeadline is F5.3: the deadline lies strictly before the fulfilment time. */
  predicate DeadlineInOrder(deadlineAt: Time, fulfilmentAt: Time) {
    deadlineAt < fulfilmentAt
  }

  /** optionalUserRef: nobody, or an account that exists and is a person. */
  predicate NamesAPerson(db: Db, ref: Option<Id>) {
    ref.Some? ==> ref.value != PLACEHOLDER && ref.value in db.users
  }

  function ValidateQuantity(quantity: int): Option<Fault> {
    if quantity < 1 then Some(QuantityTooSmall)
    else if quantity > MAX_ORDER_ITEM_QUANTITY then Some(InvalidField)
    else None
  }

  predicate Living(db: Db, restaurant: Id) {
    restaurant in db.restaurants && !db.restaurants[restaurant].deleted
  }

  function DecideCreate(db: Db, now: Time, who: Option<Principal>, req: Request): Result<Stmt, Fault>
    requires req.CreateIt?
  {
    if who.None? then Err(NotAuthenticated)
    else if !DeadlineInOrder(req.deadlineAt, req.fulfilmentAt) then Err(DeadlineAfterFulfil)
    else if req.deadlineAt <= now then Err(DeadlineInThePast)
    else if !NamesAPerson(db, req.collector) || !NamesAPerson(db, req.pickup) then Err(InvalidField)
    else Ok(CreateOrder(req.minted, who.value.id, req.at, req.fulfilment,
                        req.fulfilmentAt, req.deadlineAt, req.collector, req.pickup))
  }

  /** validateOrderPatch: each time is checked against the other's stored or new value. */
  function ValidateOrderPatch(db: Db, order: Id, body: OrderUpdate): Option<Fault>
    requires order in db.orders
  {
    var o := db.orders[order];
    if body.restaurant.Some? && HasItems(db, order) then Some(LockedRestaurant)
    else if body.restaurant.Some? && !Living(db, body.restaurant.value) then Some(InvalidField)
    else if !DeadlineInOrder(Or(body.deadlineAt, o.deadlineAt), Or(body.fulfilmentAt, o.fulfilmentAt))
    then Some(DeadlineAfterFulfil)
    else if body.collector.Some? && !NamesAPerson(db, body.collector.value) then Some(InvalidField)
    else if body.pickup.Some? && !NamesAPerson(db, body.pickup.value) then Some(InvalidField)
    else None
  }

  predicate MayAct(who: Option<Principal>, owner: Id) {
    who.Some? && (who.value.id == owner || who.value.admin)
  }

  function DecidePatch(db: Db, now: Time, who: Option<Principal>, order: Id, body: OrderUpdate): Result<Stmt, Fault> {
    if order !in db.orders then Err(NotFoundHere)
    else if who.None? then Err(NotAuthenticated)
    else if !MayAct(who, db.orders[order].creator) then Err(NotOrderCreator)
    else if !Active(db.orders[order], now) then Err(OrderClosed)
    else
      match ValidateOrderPatch(db, order, body)
      case Some(f) => Err(f)
      case None => Ok(UpdateOrder(order, body))
  }

  /** F5.9: unlike editing, deleting is allowed after the deadline. */
  function DecideRemove(db: Db, who: Option<Principal>, order: Id): Result<Stmt, Fault> {
    if order !in db.orders then Err(NotFoundHere)
    else if who.None? then Err(NotAuthenticated)
    else if !MayAct(who, db.orders[order].creator) then Err(NotOrderCreator)
    else Ok(DeleteOrder(order))
  }

  function DecideAddItem(db: Db, now: Time, who: Option<Principal>, req: Request): Result<Stmt, Fault>
    requires req.AddItem?
  {
    if req.order !in db.orders then Err(NotFoundHere)
    else if who.None? then Err(NotAuthenticated)
    else if !Active(db.orders[req.order], now) then Err(OrderClosed)
    else
      match ValidateQuantity(req.quantity)
      case Some(f) => Err(f)
      case None => Ok(AddOrderItem(req.minted, req.order, who.value.id, req.dish, req.quantity, req.note,
                                   req.chosen, req.served, req.mintedSnaps))
  }

  /** lookupOrderItem: one order's item is not reachable through another's URL. */
  predicate ItemInOrder(db: Db, order: Id, item: Id) {
    order in db.orders && item in db.items && db.items[item].order == order
  }

  function DecidePatchItem(db: Db, now: Time, who: Option<Principal>, req: Request): Result<Stmt, Fault>
    requires req.PatchItem?
  {
    if !ItemInOrder(db, req.order, req.item) then Err(NotFoundHere)
    else if who.None? then Err(NotAuthenticated)
    else if !Active(db.orders[req.order], now) then Err(OrderClosed)
    else if !MayAct(who, db.items[req.item].user) then Err(NotItemOwner)
    else
      match if req.newQuantity.Some? then ValidateQuantity(req.newQuantity.value) else None
      case Some(f) => Err(f)
      case None => Ok(UpdateOrderItem(req.item, req.newQuantity, req.newNote, req.newChosen, req.mintedSnaps))
  }

  function DecideDeleteItem(db: Db, now: Time, who: Option<Principal>, order: Id, item: Id): Result<Stmt, Fault> {
    if !ItemInOrder(db, order, item) then Err(NotFoundHere)
    else if who.None? then Err(NotAuthenticated)
    else if !Active(db.orders[order], now) then Err(OrderClosed)
    else if !MayAct(who, db.items[item].user) then Err(NotItemOwner)
    else Ok(DeleteOrderItem(item))
  }

  /** The person whose item it is, whoever opened the order, whoever collects, and the administrator. */
  predicate MayTick(db: Db, order: Id, item: Id, who: Principal)
    requires order in db.orders && item in db.items
  {
    who.admin || db.items[item].user == who.id || db.orders[order].creator == who.id
    || db.orders[order].collector == Some(who.id)
  }

  /** No deadline here: the money changes hands after it. */
  function DecideSetPaid(db: Db, who: Option<Principal>, order: Id, item: Id, paid: Option<bool>): Result<Stmt, Fault> {
    if !ItemInOrder(db, order, item) then Err(NotFoundHere)
    else if who.None? then Err(NotAuthenticated)
    else if !MayTick(db, order, item, who.value) then Err(NotItemOwner)
    else if paid.None? then Err(MissingField)
    else Ok(SetOrderItemPaid(item, paid.value))
  }

  function DecideClaim(db: Db, now: Time, who: Option<Principal>, order: Id, job: Job): Result<Stmt, Fault> {
    if order !in db.orders then Err(NotFoundHere)
    else if who.None? then Err(NotAuthenticated)
    else if !Active(db.orders[order], now) then Err(OrderClosed)
    else if Holder(db.orders[order], job).Some? then Err(JobTaken)
    else Ok(UpdateOrder(order, Assign(job, Some(who.value.id))))
  }

  predicate MayRelease(o: Order, job: Job, who: Principal) {
    who.admin || o.creator == who.id || Holder(o, job) == Some(who.id)
  }

  function DecideRelease(db: Db, now: Time, who: Option<Principal>, order: Id, job: Job): Result<Stmt, Fault> {
    if order !in db.orders then Err(NotFoundHere)
    else if who.None? then Err(NotAuthenticated)
    else if !MayRelease(db.orders[order], job, who.value) then Err(NotJobHolder)
    else if !Active(db.orders[order], now) then Err(OrderClosed)
    else if Holder(db.orders[order], job).None? then Ok(Nothing)
    else Ok(UpdateOrder(order, Assign(job, None)))
  }

  /** The impact and the deletion share one clock reading. */
  function DecideDeleteUser(db: Db, now: Time, who: Option<Principal>, user: Id): Result<Stmt, Fault> {
    if user !in db.users then Err(NotFoundHere)
    else if who.None? then Err(NotAuthenticated)
    else if !MayAct(who, user) then Err(NotOwner)
    else if user == PLACEHOLDER then Err(PlaceholderReadOnly)
    else if db.users[user].admin then Err(AdminRequired)
    else Ok(DeleteAccount(user, now))
  }

  /** What a request does with the tables it reads at one instant. */
  function Decide(db: Db, now: Time, who: Option<Principal>, req: Request): Result<Stmt, Fault> {
    match req
    case CreateIt(_, _, _, _, _, _, _) => DecideCreate(db, now, who, req)
    case PatchIt(order, body) => DecidePatch(db, now, who, order, body)
    case RemoveIt(order) => DecideRemove(db, who, order)
    case AddItem(_, _, _, _, _, _, _, _) => DecideAddItem(db, now, who, req)
    case PatchItem(_, _, _, _, _, _) => DecidePatchItem(db, now, who, req)
    case DeleteItem(order, item) => DecideDeleteItem(db, now, who, order, item)
    case SetItemPaid(order, item, paid) => DecideSetPaid(db, who, order, item, paid)
    case ClaimJob(order, job) => DecideClaim(db, now, who, order, job)
    case ReleaseJob(order, job) => DecideRelease(db, now, who, order, job)
    case DeleteUser(user) => DecideDeleteUser(db, now, who, user)
  }

  /** dbError and itemWriteError, which agree where both name an error. */
  function FaultOf(e: DbError): Fault {
    match e
    case NotFound => NotFoundHere
    case UnknownReference => InvalidField
    case RestaurantLocked => LockedRestaurant
    case WrongRestaurant => ItemWrongRestaurant
    case ItemUnavailable => SoldOut
    case ItemNotServedThen => NotServedThen
    case ModificationWrongItem => WrongModification
    case _ => DatabaseUnavailable
  }

  /** Deciding and writing with nothing in between. */
  function Handle(db: Db, now: Time, who: Option<Principal>, req: Request): Db {
    match Decide(db, now, who, req)
    case Ok(stmt) => After(db, stmt)
    case Err(_) => db
  }

  /** The documented answer: the handler's refusal, or the statement's failure translated. */
  function Answer(db: Db, now: Time, who: Option<Principal>, req: Request): Option<Fault> {
    match Decide(db, now, who, req)
    case Err(f) => Some(f)
    case Ok(stmt) =>
      match Exec(db, stmt)
      case Ok(_) => None
      // create: a restaurant that does not exist inserts nothing
      case Err(e) => Some(if req.CreateIt? && e.NotFound? then InvalidField else FaultOf(e))
  }
}
