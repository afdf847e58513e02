/**
 * What the pages show is what the tables hold: the rows ListOrderItems reads (internal/db/orderitems.go)
 * come to the order's total, so a closed order's figures stand still whatever else happens.
 */
module Pages {
  import opened Prelude
  import opened Schema
  import opened Sql
  import opened Sparing
  import opened Runs
  import opened Sums
  import Summary
  import Totals

  /** The order in which the rows of an order, and of each item's modifications, come back. */
  datatype Listing = Listing(items: seq<Id>, extras: map<Id, seq<Id>>)

  ghost predicate Lists(ids: seq<Id>, rows: set<Id>) {
    Distinct(ids) && forall i :: i in ids <==> i in rows
  }

  ghost predicate ListsOrder(db: Db, order: Id, l: Listing) {
    && Lists(l.items, ItemsOf(db, {order}))
    && (forall i | i in l.items :: i in l.extras && Lists(l.extras[i], SnapsOf(db, {i})))
  }

  function ExtraOf(db: Db, s: Id): Summary.Extra
    requires s in db.snaps
  {
    Summary.Extra(db.snaps[s].name, db.snaps[s].delta)
  }

  function RowOf(db: Db, i: Id, extras: seq<Id>, names: Id -> string): Summary.Item
    requires i in db.items && forall s | s in extras :: s in db.snaps
  {
    var row := db.items[i];
    Summary.Item(row.user, names(row.user), row.dish, row.quantity, row.name, row.unitPrice, row.note,
                 seq(|extras|, k requires 0 <= k < |extras| => ExtraOf(db, extras[k])), row.paid)
  }

  function RowsOf(db: Db, order: Id, l: Listing, names: Id -> string): seq<Summary.Item>
    requires ListsOrder(db, order, l)
  {
    seq(|l.items|, k requires 0 <= k < |l.items| =>
      assert l.items[k] in l.items; RowOf(db, l.items[k], l.extras[l.items[k]], names))
  }

  /** Adding up a list of a set's elements is adding up the set. */
  lemma {:induction false} ListingSums(ids: seq<Id>, rows: set<Id>, f: Id -> int)
    requires Lists(ids, rows)
    ensures SumSeq(ids, f) == SumOver(rows, f)
  {
    if ids == [] {
      assert rows == {};
    } else {
      var front, last := ids[..|ids| - 1], ids[|ids| - 1];
      assert ids == front + [last];
      ListingSums(front, rows - {last}, f);
      SumSplit(rows, last, f);
    }
  }

  lemma RowCostsItsLine(db: Db, i: Id, extras: seq<Id>, names: Id -> string)
    requires i in db.items && Lists(extras, SnapsOf(db, {i}))
    ensures Summary.LineTotal(RowOf(db, i, extras, names)) == LineTotal(db, i)
  {
    var row := RowOf(db, i, extras, names);
    SumAlong(extras, row.extras, DeltaOf(db), Summary.Delta());
    ListingSums(extras, SnapsOf(db, {i}), DeltaOf(db));
  }

  /** What the k-th row shows is what the tables say of the item and of what was chosen for it. */
  lemma RowShows(db: Db, order: Id, l: Listing, names: Id -> string, k: nat)
    requires ListsOrder(db, order, l) && k < |l.items|
    ensures |RowsOf(db, order, l, names)| == |l.items| && l.items[k] in db.items && l.items[k] in l.extras
    ensures var row, item := RowsOf(db, order, l, names)[k], db.items[l.items[k]];
      && row.user == item.user && row.userName == names(item.user) && row.dish == item.dish && row.quantity == item.quantity
      && row.name == item.name && row.unitPrice == item.unitPrice && row.note == item.note && row.paid == item.paid
      && |row.extras| == |l.extras[l.items[k]]|
      && forall j | 0 <= j < |row.extras| ::
           && l.extras[l.items[k]][j] in db.snaps
           && row.extras[j].name == db.snaps[l.extras[l.items[k]][j]].name
           && row.extras[j].delta == db.snaps[l.extras[l.items[k]][j]].delta
  {
    assert l.items[k] in l.items;
    var extras := l.extras[l.items[k]];
    assert forall j | 0 <= j < |extras| :: extras[j] in extras;
  }

  /** The lines of an order, paid ones or the others only. */
  ghost function LinesPaid(db: Db, paid: bool): Id -> int {
    i => if i in db.items && db.items[i].paid == paid then LineTotal(db, i) else 0
  }

  /** What either page says is settled and open is what the paid and the unpaid items cost. */
  lemma PageShowsWhatIsPaid(db: Db, order: Id, l: Listing, names: Id -> string, fee: Option<int>, minimum: Option<int>)
    requires ListsOrder(db, order, l)
    ensures var figures := Totals.FiguresOf(RowsOf(db, order, l, names), fee, minimum);
      && figures.paid == SumOver(ItemsOf(db, {order}), LinesPaid(db, true))
      && figures.unpaid == SumOver(ItemsOf(db, {order}), LinesPaid(db, false))
  {
    hide Summary.LineTotal, LineTotal;
    var rows := RowsOf(db, order, l, names);
    forall k | 0 <= k < |rows|
      ensures LinesPaid(db, true)(l.items[k]) == Summary.Settled()(rows[k])
      ensures LinesPaid(db, false)(l.items[k]) == Summary.Owed()(rows[k])
    {
      assert l.items[k] in l.items;
      RowCostsItsLine(db, l.items[k], l.extras[l.items[k]], names);
      RowShows(db, order, l, names, k);
    }
    SumAlong(l.items, rows, LinesPaid(db, true), Summary.Settled());
    SumAlong(l.items, rows, LinesPaid(db, false), Summary.Owed());
    ListingSums(l.items, ItemsOf(db, {order}), LinesPaid(db, true));
    ListingSums(l.items, ItemsOf(db, {order}), LinesPaid(db, false));
  }

  /** The item total of either page is the total of the order's rows. */
  lemma PageShowsTheTotal(db: Db, order: Id, l: Listing, names: Id -> string, fee: Option<int>, minimum: Option<int>)
    requires ListsOrder(db, order, l)
    ensures Totals.FiguresOf(RowsOf(db, order, l, names), fee, minimum).items == OrderTotal(db, order)
  {
    hide Summary.LineTotal, LineTotal;
    var rows := RowsOf(db, order, l, names);
    forall k | 0 <= k < |rows|
      ensures LineOf(db)(l.items[k]) == Summary.Total()(rows[k])
    {
      assert l.items[k] in l.items;
      RowCostsItsLine(db, l.items[k], l.extras[l.items[k]], names);
    }
    SumAlong(l.items, rows, LineOf(db), Summary.Total());
    ListingSums(l.items, ItemsOf(db, {order}), LineOf(db));
  }

  /** What an order's own terms make of its rows. */
  function FiguresShown(db: Db, order: Id, l: Listing, names: Id -> string): Totals.Figures
    requires order in db.orders && ListsOrder(db, order, l)
  {
    Totals.FiguresOf(RowsOf(db, order, l, names), db.orders[order].terms.deliveryFee, db.orders[order].terms.minOrder)
  }

  /** However a run goes on, a closed order shows the same item total, grand total and warning. */
  lemma ClosedOrderShowsTheSame(db: Db, start: Time, events: seq<Event>, order: Id,
                                l: Listing, l': Listing, names: Id -> string, names': Id -> string)
    requires Consistent(db) && Timely(start, events) && Survives(db, events, order)
    requires !Active(db.orders[order], start)
    requires ListsOrder(db, order, l) && ListsOrder(Run(db, events), order, l')
    ensures order in Run(db, events).orders
    ensures var before, after := FiguresShown(db, order, l, names), FiguresShown(Run(db, events), order, l', names');
            after.items == before.items && after.grand == before.grand && after.belowMinimum == before.belowMinimum
    ensures var shown, o := FiguresShown(db, order, l, names), db.orders[order];
      && shown.items == OrderTotal(db, order)
      && shown.grand == shown.items + (if o.terms.deliveryFee.Some? then o.terms.deliveryFee.value else 0)
      && (shown.belowMinimum <==> o.terms.minOrder.Some? && shown.items < o.terms.minOrder.value)
  {
    hide Consistent, Run, Survives, OrderTotal, RowsOf, ListsOrder;
    var db' := Run(db, events);
    ClosedOrderIsFrozen(db, start, events, order);
    SameContentsSameTotal(db, db', order);
    var o, o' := db.orders[order], db'.orders[order];
    PageShowsTheTotal(db, order, l, names, o.terms.deliveryFee, o.terms.minOrder);
    PageShowsTheTotal(db', order, l', names', o'.terms.deliveryFee, o'.terms.minOrder);
  }
}
