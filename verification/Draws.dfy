/** The draw for vacant jobs (21.3): what one pass does, and that an order is drawn once. */
module Draws {
  import opened Prelude
  import opened Schema
  import opened Sql
  import opened SqlInvariants
  import opened Sparing
  import opened Handlers
  import opened Runs
  import opened Interleaving

  /** A person: an account with an item in the order that is not the placeholder. */
  predicate TakesPart(db: Db, o: Id, user: Id) {
    user != PLACEHOLDER && exists i :: i in db.items && db.items[i].order == o && db.items[i].user == user
  }

  predicate HasPeople(db: Db, o: Id) {
    exists i :: i in db.items && db.items[i].order == o && db.items[i].user != PLACEHOLDER
  }

  /** One job of a drawn order: held jobs stand, vacant ones go to somebody who takes part, if anybody does. */
  ghost predicate JobSettled(db: Db, o: Id, before: Option<Id>, after: Option<Id>, drawn: bool) {
    && (before.Some? ==> after == before && !drawn)
    && (before.None? ==> drawn == after.Some? == HasPeople(db, o))
    && (before.None? && after.Some? ==> TakesPart(db, o, after.value))
  }

  /** What a pass does to each order: those closed, not drawn before and not locked are settled, and no other row is touched. */
  lemma DrawSettles(db: Db, now: Time, locked: set<Id>, picks: map<Id, Id>, o: Id)
    requires Draw(db, now, locked, picks).Ok? && o in db.orders
    ensures var before := db.orders[o];
            var after := Draw(db, now, locked, picks).value.orders[o];
            if o !in locked && !before.jobsDrawn && before.deadlineAt <= now then
              && after.jobsDrawn
              && JobSettled(db, o, before.collector, after.collector, after.collectorDrawn)
              && JobSettled(db, o, before.pickup, after.pickup, after.pickupDrawn)
              && (before.collector.None? && before.pickup.None? ==> after.collector == after.pickup)
              && after == before.(jobsDrawn := true,
                                  collector := after.collector, collectorDrawn := after.collectorDrawn,
                                  pickup := after.pickup, pickupDrawn := after.pickupDrawn)
            else after == before
  {
    if HasPeople(db, o) && (db.orders[o].collector.None? || db.orders[o].pickup.None?) {
      var i :| i in db.items && db.items[i].order == o && db.items[i].user != PLACEHOLDER;
      assert db.items[i].user in People(db, o);
    }
    if o in picks {
      assert picks[o] in People(db, o);
    }
  }

  /** A draw can always be made: somebody can be picked wherever there is anybody. */
  lemma DrawIsPossible(db: Db, now: Time, locked: set<Id>) returns (picks: map<Id, Id>)
    ensures Draw(db, now, locked, picks).Ok?
  {
    var due := Due(db, now, locked);
    picks := map o | o in due && People(db, o) != {} :: var u :| u in People(db, o); u;
  }

  /** The ids DrawJobs returns are the orders in which a vacant job was filled. */
  lemma FilledOrders(db: Db, now: Time, locked: set<Id>, picks: map<Id, Id>, o: Id)
    requires Draw(db, now, locked, picks).Ok? && o in db.orders
    ensures o in picks <==>
            && o !in locked && !db.orders[o].jobsDrawn && db.orders[o].deadlineAt <= now && HasPeople(db, o)
            && (db.orders[o].collector.None? || db.orders[o].pickup.None?)
  {
    if o in Due(db, now, locked) {
      if HasPeople(db, o) && (db.orders[o].collector.None? || db.orders[o].pickup.None?) {
        var i :| i in db.items && db.items[i].order == o && db.items[i].user != PLACEHOLDER;
        assert db.items[i].user in People(db, o);
      }
      if People(db, o) != {} {
        var u :| u in People(db, o);
      }
    }
  }

  /** A pass leaves to later ones what it did not take, and no more. */
  lemma LaterDrawsTakeTheRest(db: Db, now: Time, locked: set<Id>, picks: map<Id, Id>, later: Time, locked': set<Id>)
    requires Draw(db, now, locked, picks).Ok?
    ensures Due(Draw(db, now, locked, picks).value, later, locked') == Due(db, later, locked') - Due(db, now, locked)
  {
    forall o
      ensures o in Due(Draw(db, now, locked, picks).value, later, locked')
              <==> o in Due(db, later, locked') && o !in Due(db, now, locked)
    {
      if o in db.orders { DrawSettles(db, now, locked, picks, o); }
      hide LegalPicks, PickFor;
    }
    hide Draw, Due;
  }

  /** A second pass at once takes the orders the first found locked and it does not; a third finds those locked twice. */
  lemma SecondDrawTakesTheLocked(db: Db, now: Time, locked: set<Id>, picks: map<Id, Id>, locked': set<Id>, picks': map<Id, Id>)
    requires Draw(db, now, locked, picks).Ok?
    ensures var db1 := Draw(db, now, locked, picks).value;
            && Due(db1, now, locked') == Due(db, now, {}) * locked - locked'
            && (Draw(db1, now, locked', picks').Ok? ==>
                  Due(Draw(db1, now, locked', picks').value, now, {}) == Due(db, now, {}) * locked * locked')
  {
    LaterDrawsTakeTheRest(db, now, locked, picks, now, locked');
    LaterDrawsTakeTheRest(db, now, locked, picks, now, {});
    var db1 := Draw(db, now, locked, picks).value;
    if Draw(db1, now, locked', picks').Ok? { LaterDrawsTakeTheRest(db1, now, locked', picks', now, {}); }
    hide Draw;
    assert forall l: set<Id> :: Due(db, now, l) == Due(db, now, {}) - l;
  }

  /** So a second pass at once finds nothing left to do, whoever holds what locks, after one that found none. */
  lemma SecondDrawIsIdle(db: Db, now: Time, picks: map<Id, Id>, locked: set<Id>, picks': map<Id, Id>)
    requires Draw(db, now, {}, picks).Ok?
    requires Draw(Draw(db, now, {}, picks).value, now, locked, picks').Ok?
    ensures picks' == map[]
    ensures Draw(Draw(db, now, {}, picks).value, now, locked, picks').value == Draw(db, now, {}, picks).value
  {
    var db1 := Draw(db, now, {}, picks).value;
    SecondDrawTakesTheLocked(db, now, {}, picks, locked, picks');
    assert Due(db1, now, locked) == {};
    assert picks'.Keys == {};
    var db2 := Draw(db1, now, locked, picks').value;
    assert db2.orders == db1.orders;
  }

  // ----- over runs -----

  /** The order is in the set this event draws. */
  predicate DrawnBy(db: Db, e: Event, id: Id) {
    && e.action.Server? && e.action.stmt.DrawJobs?
    && Exec(db, e.action.stmt).Ok?
    && id in Due(db, e.at, e.action.stmt.locked)
  }

  function TimesDrawn(db: Db, events: seq<Event>, id: Id): nat
    decreases |events|
  {
    if events == [] then 0
    else (if DrawnBy(db, events[0], id) then 1 else 0) + TimesDrawn(Next(db, events[0]), events[1..], id)
  }

  /** The flag on a closed order is never taken back. */
  lemma FlagStands(db: Db, e: Event, id: Id)
    requires Consistent(db) && WellFormed(e)
    requires id in db.orders && id in Next(db, e).orders && !Active(db.orders[id], e.at)
    ensures db.orders[id].jobsDrawn ==> Next(db, e).orders[id].jobsDrawn
    ensures DrawnBy(db, e, id) ==> Next(db, e).orders[id].jobsDrawn
    ensures !Active(Next(db, e).orders[id], e.at)
  {
    ClosedOrderStands(db, e, id);
    SameDeadline(db, Next(db, e), id);
    NextIsAfter(db, e);
    var stmt := Issued(db, e);
    hide Consistent, Decide, SameContents, Spares, Next;
    if stmt.DrawJobs? && Exec(db, stmt).Ok? {
      FlagAfterDraw(db, stmt.now, stmt.locked, stmt.picks, id);
    } else if stmt.DeleteAccount? && Exec(db, stmt).Ok? {
      FlagAfterDeletion(db, stmt.user, stmt.now, id);
    }
  }

  lemma FlagAfterDraw(db: Db, now: Time, locked: set<Id>, picks: map<Id, Id>, id: Id)
    requires Draw(db, now, locked, picks).Ok? && id in db.orders
    ensures var db' := Draw(db, now, locked, picks).value;
            id in db'.orders && (db.orders[id].jobsDrawn || id in Due(db, now, locked) ==> db'.orders[id].jobsDrawn)
  {}

  lemma FlagAfterDeletion(db: Db, user: Id, now: Time, id: Id)
    requires RemapAndDelete(db, user, now).Ok? && id in db.orders
    ensures var db' := RemapAndDelete(db, user, now).value;
            id in db'.orders && db'.orders[id].jobsDrawn == db.orders[id].jobsDrawn
  {}

  /** At most once in any run, and never again once drawn. */
  lemma {:induction false} DrawnAtMostOnce(db: Db, start: Time, events: seq<Event>, id: Id)
    requires Consistent(db) && Timely(start, events) && Survives(db, events, id)
    ensures TimesDrawn(db, events, id) <= 1
    ensures db.orders[id].jobsDrawn && !Active(db.orders[id], start) ==> TimesDrawn(db, events, id) == 0
    decreases |events|
  {
    if events != [] {
      var db' := Next(db, events[0]);
      NextKeeps(db, events[0]);
      if !Active(db.orders[id], events[0].at) {
        FlagStands(db, events[0], id);
      }
      hide Consistent, Next;
      DrawnAtMostOnce(db', events[0].at, events[1..], id);
    }
  }

  /** Once drawn, an order is closed, and no later request opens it again. */
  lemma DrawnIsClosedForGood(db: Db, start: Time, events: seq<Event>, id: Id)
    requires Consistent(db) && Timely(start, events) && Survives(db, events, id)
    requires events != [] && DrawnBy(db, events[0], id)
    ensures id in Run(db, events).orders
    ensures !Active(Run(db, events).orders[id], events[0].at)
  {
    TimelyFrom(start, events);
    ClosedOrderIsFrozen(db, events[0].at, events, id);
    SurvivesEnd(db, events, id);
  }

  lemma TimelyFrom(start: Time, events: seq<Event>)
    requires events != [] && Timely(start, events)
    ensures Timely(events[0].at, events)
  {}

  lemma {:induction false} SurvivesEnd(db: Db, events: seq<Event>, id: Id)
    requires Survives(db, events, id)
    ensures id in Run(db, events).orders
    decreases |events|
  {
    hide Next;
    if events != [] { SurvivesEnd(Next(db, events[0]), events[1..], id); }
  }

  // ----- at statement granularity -----

  predicate DrawnByStatement(db: Db, stmt: Stmt, id: Id) {
    stmt.DrawJobs? && Exec(db, stmt).Ok? && id in Due(db, stmt.now, stmt.locked)
  }

  function TimesDrawnBy(db: Db, stmts: seq<Stmt>, id: Id): nat
    decreases |stmts|
  {
    if stmts == [] then 0
    else (if DrawnByStatement(db, stmts[0], id) then 1 else 0) + TimesDrawnBy(After(db, stmts[0]), stmts[1..], id)
  }

  predicate StaysThrough(db: Db, stmts: seq<Stmt>, id: Id)
    decreases |stmts|
  {
    id in db.orders && (stmts != [] ==> StaysThrough(After(db, stmts[0]), stmts[1..], id))
  }

  lemma DrawnIsFlagged(db: Db, stmt: Stmt, id: Id)
    requires id in db.orders && id in After(db, stmt).orders
    ensures db.orders[id].jobsDrawn ==> After(db, stmt).orders[id].jobsDrawn && !DrawnByStatement(db, stmt, id)
    ensures DrawnByStatement(db, stmt, id) ==> After(db, stmt).orders[id].jobsDrawn
  {
    OrderCarriedAfter(db, stmt, id);
    if DrawnByStatement(db, stmt, id) { FlagAfterDraw(db, stmt.now, stmt.locked, stmt.picks, id); }
  }

  /** However statements interleave, and whatever clock each draw reads, no statement takes the flag back. */
  lemma {:induction false} DrawnAtMostOnceByStatements(db: Db, stmts: seq<Stmt>, id: Id)
    requires StaysThrough(db, stmts, id)
    ensures TimesDrawnBy(db, stmts, id) <= 1
    ensures db.orders[id].jobsDrawn ==> TimesDrawnBy(db, stmts, id) == 0
    decreases |stmts|
  {
    if stmts != [] {
      hide After, DrawnByStatement;
      DrawnIsFlagged(db, stmts[0], id);
      DrawnAtMostOnceByStatements(After(db, stmts[0]), stmts[1..], id);
    }
  }

  // ----- what opens a closed order -----

  /** A patch that sets the order's deadline after this time. */
  predicate Extends(db: Db, stmt: Stmt, order: Id, t: Time) {
    && stmt.UpdateOrder? && stmt.id == order && ChangeOrder(db, order, stmt.update).Ok?
    && stmt.update.deadlineAt.Some? && t < stmt.update.deadlineAt.value
  }

  lemma PatchedDeadline(db: Db, order: Id, u: OrderUpdate)
    requires ChangeOrder(db, order, u).Ok?
    ensures var db' := ChangeOrder(db, order, u).value;
      && order in db.orders && order in db'.orders
      && db'.orders[order].deadlineAt == Or(u.deadlineAt, db.orders[order].deadlineAt)
  {
    if u.deadlineAt.Some? {
      DeadlineIsSet(db, order, u);
    } else if u != NO_UPDATE {
      var row := Patched(db.orders[order], u, db.restaurants);
      assert ChangeOrder(db, order, u).value == db.(orders := db.orders[order := row]);
      hide ChangeOrder;
    }
  }

  /** Of all statements such a patch is the only one to open a closed order. */
  lemma OpensIff(db: Db, stmt: Stmt, order: Id, t: Time)
    requires order in db.orders && !Active(db.orders[order], t) && order in After(db, stmt).orders
    ensures Active(After(db, stmt).orders[order], t) <==> Extends(db, stmt, order, t)
  {
    OrderCarriedAfter(db, stmt, order);
    if stmt.UpdateOrder? && stmt.id == order {
      if ChangeOrder(db, order, stmt.update).Ok? { PatchedDeadline(db, order, stmt.update); }
      hide ChangeOrder;
    } else {
      hide After;
    }
  }

  predicate ClosedAllAlong(db: Db, stmts: seq<Stmt>, order: Id, t: Time)
    requires StaysThrough(db, stmts, order)
    decreases |stmts|
  {
    !Active(db.orders[order], t) && (stmts != [] ==> ClosedAllAlong(After(db, stmts[0]), stmts[1..], order, t))
  }

  predicate SomeExtends(db: Db, stmts: seq<Stmt>, order: Id, t: Time)
    decreases |stmts|
  {
    stmts != [] && (Extends(db, stmts[0], order, t) || SomeExtends(After(db, stmts[0]), stmts[1..], order, t))
  }

  /** However statements interleave, an order closed at a time stays closed for that time unless one of them is such a patch. */
  lemma {:induction false} ClosedAllAlongIff(db: Db, stmts: seq<Stmt>, order: Id, t: Time)
    requires StaysThrough(db, stmts, order) && !Active(db.orders[order], t)
    ensures ClosedAllAlong(db, stmts, order, t) <==> !SomeExtends(db, stmts, order, t)
    decreases |stmts|
  {
    if stmts != [] {
      hide After, Extends, Active;
      OpensIff(db, stmts[0], order, t);
      if !Extends(db, stmts[0], order, t) { ClosedAllAlongIff(After(db, stmts[0]), stmts[1..], order, t); }
    }
  }

  /** The order stays, and each statement misses it as it then is. */
  predicate AllSpare(db: Db, stmts: seq<Stmt>, order: Id)
    decreases |stmts|
  {
    && order in db.orders
    && (stmts != [] ==> Spares(db, stmts[0], order) && AllSpare(After(db, stmts[0]), stmts[1..], order))
  }

  /** However many statements that miss an order run, whatever handlers read, it keeps its contents and what it costs. */
  lemma {:induction false} SparedByAll(db: Db, stmts: seq<Stmt>, order: Id)
    requires Consistent(db) && AllSpare(db, stmts, order)
    ensures SameContents(db, RunStatements(db, stmts), order)
    ensures OrderTotal(RunStatements(db, stmts), order) == OrderTotal(db, order)
    decreases |stmts|
  {
    if stmts == [] {
      SameTablesSpare(db, db, order);
    } else {
      var db1 := After(db, stmts[0]);
      SparedStays(db, stmts[0], order);
      ConsistentAfter(db, stmts[0]);
      hide After, Spares, Consistent, SameContents, OrderTotal;
      SparedByAll(db1, stmts[1..], order);
      SameContentsTransitive(db, db1, RunStatements(db1, stmts[1..]), order);
      SameContentsSameTotal(db, db1, order);
    }
  }

  /**
   * That a drawn order is never open again is the handler's doing: a patch of the deadline decided in
   * time and executed after the draw opens it until the new deadline, drawn as it is.
   */
  lemma LatePatchReopens(db: Db, decided: Time, who: Option<Principal>, order: Id, body: OrderUpdate, db': Db, late: Time)
    requires Decide(db, decided, who, PatchIt(order, body)).Ok? && body.deadlineAt.Some?
    requires order in db'.orders && db'.orders[order].jobsDrawn && !Active(db'.orders[order], late)
    requires Exec(db', Decide(db, decided, who, PatchIt(order, body)).value).Ok?
    ensures var done := After(db', Decide(db, decided, who, PatchIt(order, body)).value);
      && order in done.orders && done.orders[order].jobsDrawn
      && (Active(done.orders[order], late) <==> late < body.deadlineAt.value)
    ensures Decide(db', late, who, PatchIt(order, body))
            == Err(if who.Some? && (who.value.id == db'.orders[order].creator || who.value.admin) then OrderClosed
                   else NotOrderCreator)
  {
    PatchIssues(db, decided, who, order, body);
    DeadlineIsSet(db', order, body);
    ClosedPatchIsRefused(db', late, who, order, body);
    hide Decide, ChangeOrder;
  }

  lemma PatchIssues(db: Db, now: Time, who: Option<Principal>, order: Id, body: OrderUpdate)
    requires Decide(db, now, who, PatchIt(order, body)).Ok?
    ensures who.Some? && Decide(db, now, who, PatchIt(order, body)).value == UpdateOrder(order, body)
  {}

  lemma ClosedPatchIsRefused(db: Db, late: Time, who: Option<Principal>, order: Id, body: OrderUpdate)
    requires who.Some? && order in db.orders && !Active(db.orders[order], late)
    ensures Decide(db, late, who, PatchIt(order, body))
            == Err(if MayAct(who, db.orders[order].creator) then OrderClosed else NotOrderCreator)
  {}

  lemma DeadlineIsSet(db: Db, order: Id, body: OrderUpdate)
    requires body.deadlineAt.Some? && ChangeOrder(db, order, body).Ok?
    ensures var done := ChangeOrder(db, order, body).value;
      && order in done.orders && order in db.orders
      && done.orders[order].jobsDrawn == db.orders[order].jobsDrawn
      && done.orders[order].deadlineAt == body.deadlineAt.value
  {
    var row := Patched(db.orders[order], body, db.restaurants);
    assert ChangeOrder(db, order, body).value == db.(orders := db.orders[order := row]);
    hide ChangeOrder;
  }
}
