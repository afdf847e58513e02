/**
 * Whole runs at handler granularity: requests, the draw, the cleanup and menu edits in any order
 * under a clock that never goes back. Once an order's deadline has passed, what was ordered stands.
 */
module Runs {
  import opened Prelude
  import opened Schema
  import opened Sql
  import opened SqlInvariants
  import opened Handlers
  import opened Sparing

  datatype Action = Api(who: Option<Principal>, req: Request) | Server(stmt: Stmt)
  datatype Event = Event(at: Time, action: Action)

  /** What happens without an order request: the menu, the draw, one statement of the cleanup. */
  predicate ServerSide(stmt: Stmt) {
    !stmt.CreateOrder? && !stmt.UpdateOrder? && !stmt.DeleteOrder? && !stmt.AddOrderItem?
    && !stmt.UpdateOrderItem? && !stmt.DeleteOrderItem? && !stmt.SetOrderItemPaid? && !stmt.DeleteAccount?
  }

  /** An event reads the clock at its own time. */
  predicate WellFormed(e: Event) {
    e.action.Server? ==>
      && ServerSide(e.action.stmt)
      && (e.action.stmt.DrawJobs? ==> e.action.stmt.now == e.at)
      && (e.action.stmt.Clean? ==> e.action.stmt.now == e.at)
  }

  function Next(db: Db, e: Event): Db {
    match e.action
    case Api(who, req) => Handle(db, e.at, who, req)
    case Server(stmt) => After(db, stmt)
  }

  function Run(db: Db, events: seq<Event>): Db
    decreases |events|
  {
    if events == [] then db else Run(Next(db, events[0]), events[1..])
  }

  /** Well-formed events at or after `start`, none earlier than the one before it. */
  predicate Timely(start: Time, events: seq<Event>)
    decreases |events|
  {
    events != [] ==> start <= events[0].at && WellFormed(events[0]) && Timely(events[0].at, events[1..])
  }

  /** The order is there now and after every event. */
  predicate Survives(db: Db, events: seq<Event>, id: Id)
    decreases |events|
  {
    id in db.orders && (events != [] ==> Survives(Next(db, events[0]), events[1..], id))
  }

  // ----- the handlers spare closed orders -----

  lemma DecisionSpares(db: Db, now: Time, who: Option<Principal>, req: Request, id: Id)
    requires id in db.orders && !Active(db.orders[id], now)
    requires Decide(db, now, who, req).Ok?
    ensures Spares(db, Decide(db, now, who, req).value, id)
  {}

  /** The statement an event issues, if its handler does not refuse. */
  function Issued(db: Db, e: Event): Stmt {
    match e.action
    case Server(stmt) => stmt
    case Api(who, req) =>
      match Decide(db, e.at, who, req)
      case Ok(stmt) => stmt
      case Err(_) => Nothing
  }

  lemma NextIsAfter(db: Db, e: Event)
    ensures Next(db, e) == After(db, Issued(db, e))
  {
    hide Decide;
  }

  /** F6.6 for one event: a closed order stands, for everyone, but for ticks, the draw and deletions. */
  lemma ClosedOrderStands(db: Db, e: Event, id: Id)
    requires Consistent(db) && WellFormed(e)
    requires id in db.orders && !Active(db.orders[id], e.at) && id in Next(db, e).orders
    ensures SameContents(db, Next(db, e), id)
    ensures RowsStand(db, Issued(db, e), Next(db, e), id)
  {
    NextIsAfter(db, e);
    if e.action.Api? && Decide(db, e.at, e.action.who, e.action.req).Ok? {
      DecisionSpares(db, e.at, e.action.who, e.action.req, id);
    }
    hide Consistent, Decide, After;
    SparedStays(db, Issued(db, e), id);
  }

  lemma NextKeeps(db: Db, e: Event)
    requires Consistent(db)
    ensures Consistent(Next(db, e))
  {
    NextIsAfter(db, e);
    ExecKeeps(db, Issued(db, e));
  }

  /** Every reachable state satisfies the schema, and every order's items are its restaurant's. */
  lemma {:induction false} RunKeeps(db: Db, events: seq<Event>)
    requires Consistent(db)
    ensures Consistent(Run(db, events))
    decreases |events|
  {
    if events != [] {
      NextKeeps(db, events[0]);
      hide Consistent, Next;
      RunKeeps(Next(db, events[0]), events[1..]);
    }
  }

  /**
   * Freeze: from the moment the clock reaches its deadline, an order keeps its restaurant, times,
   * terms, items, quantities, notes, prices and snapshots through every run it survives.
   */
  lemma {:induction false} ClosedOrderIsFrozen(db: Db, start: Time, events: seq<Event>, id: Id)
    requires Consistent(db) && Timely(start, events) && Survives(db, events, id)
    requires !Active(db.orders[id], start)
    ensures SameContents(db, Run(db, events), id)
    ensures !Active(Run(db, events).orders[id], start)
    decreases |events|
  {
    hide Consistent, Next, SameContents;
    if events == [] {
      SameTablesSpare(db, db, id);
    } else {
      var db' := Next(db, events[0]);
      ClosedOrderStands(db, events[0], id);
      NextKeeps(db, events[0]);
      SameDeadline(db, db', id);
      ClosedOrderIsFrozen(db', events[0].at, events[1..], id);
      SameContentsTransitive(db, db', Run(db, events), id);
      SameDeadline(db, Run(db, events), id);
    }
  }

  /** No menu edit, account deletion, cleanup or request changes what a closed order costs. */
  lemma ClosedOrderCostsTheSame(db: Db, start: Time, events: seq<Event>, id: Id)
    requires Consistent(db) && Timely(start, events) && Survives(db, events, id)
    requires !Active(db.orders[id], start)
    ensures OrderTotal(Run(db, events), id) == OrderTotal(db, id)
  {
    hide Consistent, Run, Survives, OrderTotal;
    ClosedOrderIsFrozen(db, start, events, id);
    SameContentsSameTotal(db, Run(db, events), id);
  }
}
