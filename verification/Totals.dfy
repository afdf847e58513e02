/**
 * What the summary and the order page say an order costs: internal/api/summary.go adds up the lines,
 * internal/api/orders.go the items, and everyone's share must come to the same.
 */
module Totals {
  import opened Prelude
  import opened Text
  import opened Sorting
  import opened Sums
  import opened MenuOrder
  import opened Summary

  // ----- who ordered what -----

  datatype Person = Person(user: Id, name: string, items: seq<Item>, owed: int, settled: int)

  function ByUser(): Item -> Id { (i: Item) => i.user }

  function PersonOf(group: seq<Item>): Person
    requires group != []
  {
    Person(group[0].user, group[0].userName, group, SumSeq(group, Owed()), SumSeq(group, Settled()))
  }

  function PersonFor(items: seq<Item>, user: Id): Person
    requires user in KeysOf(items, ByUser())
  {
    ThoseAreThere(items, ByUser(), user);
    PersonOf(Those(items, ByUser(), user))
  }

  function NameLess(lower: char -> char): (Person, Person) -> bool {
    (a: Person, b: Person) => StringLess(Lowered(a.name, lower), Lowered(b.name, lower))
  }

  lemma NameLessIsStrictWeak(lower: char -> char)
    ensures StrictWeak(NameLess(lower))
  {
    var less := NameLess(lower);
    forall a ensures !less(a, a) { StringLessIrreflexive(Lowered(a.name, lower)); }
    forall a, b, c | less(a, b) && less(b, c)
      ensures less(a, c)
    {
      StringLessTransitive(Lowered(a.name, lower), Lowered(b.name, lower), Lowered(c.name, lower));
    }
    forall a, b, c | !less(a, b) && !less(b, c)
      ensures !less(a, c)
    {
      StringNotLess(Lowered(a.name, lower), Lowered(b.name, lower), Lowered(c.name, lower));
    }
  }

  function Persons(items: seq<Item>): seq<Person> {
    var users := KeysOf(items, ByUser());
    seq(|users|, i requires 0 <= i < |users| => PersonFor(items, users[i]))
  }

  function ByName(items: seq<Item>, lower: char -> char): seq<Person> {
    StableSort(Persons(items), NameLess(lower))
  }

  /** One more item adds a person or belongs to one, and concerns nobody else. */
  lemma OneMoreOrdered(items: seq<Item>, item: Item)
    ensures var users := KeysOf(items, ByUser());
            KeysOf(items + [item], ByUser()) == if item.user in users then users else users + [item.user]
    ensures forall u | u in KeysOf(items, ByUser()) && u != item.user ::
              PersonFor(items + [item], u) == PersonFor(items, u)
    ensures PersonFor(items + [item], item.user) ==
              if item.user in KeysOf(items, ByUser()) then
                var p := PersonFor(items, item.user);
                p.(items := p.items + [item], owed := p.owed + Owed()(item), settled := p.settled + Settled()(item))
              else
                Person(item.user, item.userName, [item], Owed()(item), Settled()(item))
  {
    hide LineTotal;
    assert (items + [item])[..|items|] == items;
    var group := Those(items, ByUser(), item.user);
    ThoseAreThere(items, ByUser(), item.user);
    SumSnoc(group, item, Owed());
    SumSnoc(group, item, Settled());
    if group == [] { assert group + [item] == [item]; }
    forall u | u in KeysOf(items, ByUser()) && u != item.user
      ensures PersonFor(items + [item], u) == PersonFor(items, u)
    {
      assert Those(items + [item], ByUser(), u) == Those(items, ByUser(), u);
    }
  }

  lemma NobodyYet()
    ensures KeysOf([], ByUser()) == []
  {}

  method PerPerson(items: seq<Item>, lower: char -> char) returns (out: seq<Person>)
    ensures out == ByName(items, lower)
    ensures Sorted(out, NameLess(lower))
  {
    hide PersonFor, KeysOf, LineTotal;
    var lines: map<Id, Person> := map[];
    var order: seq<Id> := [];
    NobodyYet();
    for i := 0 to |items|
      invariant order == KeysOf(items[..i], ByUser())
      invariant forall u :: u in lines <==> u in order
      invariant forall u | u in order :: lines[u] == PersonFor(items[..i], u)
    {
      var item := items[i];
      OneMoreOrdered(items[..i], item);
      assert items[..i + 1] == items[..i] + [item];
      var line := if item.user in lines then lines[item.user] else Person(item.user, item.userName, [], 0, 0);
      if item.user !in lines {
        order := order + [item.user];
      }
      line := line.(items := line.items + [item]);
      var total := LineTotalCents(item);
      if item.paid {
        line := line.(settled := line.settled + total);
      } else {
        line := line.(owed := line.owed + total);
      }
      lines := lines[item.user := line];
    }
    assert items[..|items|] == items;
    out := [];
    for n := 0 to |order|
      invariant out == Persons(items)[..n]
    {
      out := out + [lines[order[n]]];
    }
    assert out == Persons(items);
    NameLessIsStrictWeak(lower);
    StableSortSorts(out, NameLess(lower));
    out := StableSort(out, NameLess(lower));
  }

  // ----- conservation -----

  function LineCents(): Line -> int { (l: Line) => l.total }
  function LineCount(): Line -> int { (l: Line) => l.count }
  function PersonOwes(): Person -> int { (p: Person) => p.owed }
  function PersonPaid(): Person -> int { (p: Person) => p.settled }

  /** Aggregation loses no cent and no portion. */
  lemma LinesConserve(items: seq<Item>, ids: map<Id, string>, lower: char -> char)
    ensures SumSeq(AggregatedLines(items, ids, lower), LineCents()) == SumSeq(items, Total())
    ensures SumSeq(AggregatedLines(items, ids, lower), LineCount()) == SumSeq(items, Quantity())
  {
    hide SumSeq, KeysOf, Lines, AggregatedLines;
    LinesAreOneFor(items, ids, lower);
    LinesAddUp(items, ids, lower, LineCents(), Total());
    LinesAddUp(items, ids, lower, LineCount(), Quantity());
  }

  /** Each line's figures are those of the items of its key. */
  lemma LinesAreOneFor(items: seq<Item>, ids: map<Id, string>, lower: char -> char)
    ensures var lines, keys := Lines(items, ids, lower), KeysOf(items, ByKey(lower));
      && |lines| == |keys|
      && (forall n | 0 <= n < |keys| ::
            && LineCents()(lines[n]) == SumSeq(Those(items, ByKey(lower), keys[n]), Total())
            && LineCount()(lines[n]) == SumSeq(Those(items, ByKey(lower), keys[n]), Quantity()))
  {
    hide SumSeq, KeysOf, Those;
  }

  lemma LinesAddUp(items: seq<Item>, ids: map<Id, string>, lower: char -> char, figure: Line -> int, each: Item -> int)
    requires var lines, keys := Lines(items, ids, lower), KeysOf(items, ByKey(lower));
      && |lines| == |keys|
      && (forall n | 0 <= n < |keys| :: figure(lines[n]) == SumSeq(Those(items, ByKey(lower), keys[n]), each))
    ensures SumSeq(AggregatedLines(items, ids, lower), figure) == SumSeq(items, each)
  {
    var lines, keys := Lines(items, ids, lower), KeysOf(items, ByKey(lower));
    hide SumSeq, KeysOf, Lines, Those;
    StableSortPermutes(lines, MenuLess(lower));
    var sums := (k: Key) => SumSeq(Those(items, ByKey(lower), k), each);
    SumPermutes(AggregatedLines(items, ids, lower), lines, figure);
    SumAlong(keys, lines, sums, figure);
    GroupSumsConserve(items, ByKey(lower), each, sums);
  }

  /** What everybody owes and has settled is what is unpaid and paid. */
  lemma PersonsConserve(items: seq<Item>, lower: char -> char)
    ensures SumSeq(ByName(items, lower), PersonOwes()) == SumSeq(items, Owed())
    ensures SumSeq(ByName(items, lower), PersonPaid()) == SumSeq(items, Settled())
  {
    var persons, users := Persons(items), KeysOf(items, ByUser());
    StableSortPermutes(persons, NameLess(lower));
    var owed := (u: Id) => SumSeq(Those(items, ByUser(), u), Owed());
    var settled := (u: Id) => SumSeq(Those(items, ByUser(), u), Settled());
    SumPermutes(ByName(items, lower), persons, PersonOwes());
    SumPermutes(ByName(items, lower), persons, PersonPaid());
    SumAlong(users, persons, owed, PersonOwes());
    SumAlong(users, persons, settled, PersonPaid());
    GroupSumsConserve(items, ByUser(), Owed(), owed);
    GroupSumsConserve(items, ByUser(), Settled(), settled);
  }

  /** The two halves of an order make the whole. */
  lemma {:induction false} OwedAndSettledMakeTheTotal(items: seq<Item>)
    ensures SumSeq(items, Owed()) + SumSeq(items, Settled()) == SumSeq(items, Total())
  {
    if items != [] { OwedAndSettledMakeTheTotal(items[..|items| - 1]); }
  }

  // ----- the two reports -----

  /** The figures both pages show. */
  datatype Figures = Figures(items: int, paid: int, unpaid: int, grand: int, belowMinimum: bool)

  function FiguresOf(items: seq<Item>, fee: Option<int>, minimum: Option<int>): Figures {
    var total := SumSeq(items, Total());
    Figures(total, SumSeq(items, Settled()), SumSeq(items, Owed()),
            total + (if fee.Some? then fee.value else 0), minimum.Some? && total < minimum.value)
  }

  /** summary.go: the item total comes from the aggregated lines. */
  method BuildSummary(items: seq<Item>, ids: map<Id, string>, fee: Option<int>, minimum: Option<int>,
                      lower: char -> char)
    returns (lines: seq<Line>, persons: seq<Person>, figures: Figures)
    ensures lines == AggregatedLines(items, ids, lower) && persons == ByName(items, lower)
    ensures figures == FiguresOf(items, fee, minimum)
    ensures figures.items == SumSeq(items, Total()) && figures.unpaid + figures.paid == figures.items
    ensures figures.grand == figures.items + if fee.Some? then fee.value else 0
    ensures figures.belowMinimum <==> minimum.Some? && figures.items < minimum.value
    ensures SumSeq(persons, PersonOwes()) == figures.unpaid && SumSeq(persons, PersonPaid()) == figures.paid
  {
    hide AggregatedLines, ByName, LineTotal, Sorted, MenuLess, NameLess;
    lines := Aggregate(items, ids, lower);
    var itemTotal := 0;
    for n := 0 to |lines|
      invariant itemTotal == SumSeq(lines[..n], LineCents())
    {
      SumSnoc(lines[..n], lines[n], LineCents());
      assert lines[..n + 1] == lines[..n] + [lines[n]];
      itemTotal := itemTotal + lines[n].total;
    }
    assert lines[..|lines|] == lines;
    LinesConserve(items, ids, lower);
    persons := PerPerson(items, lower);
    PersonsConserve(items, lower);
    var paid, unpaid := 0, 0;
    for i := 0 to |items|
      invariant paid == SumSeq(items[..i], Settled()) && unpaid == SumSeq(items[..i], Owed())
    {
      assert items[..i + 1] == items[..i] + [items[i]];
      SumSnoc(items[..i], items[i], Settled());
      SumSnoc(items[..i], items[i], Owed());
      var total := LineTotalCents(items[i]);
      if items[i].paid {
        paid := paid + total;
      } else {
        unpaid := unpaid + total;
      }
    }
    assert items[..|items|] == items;
    OwedAndSettledMakeTheTotal(items);
    var grand, below := itemTotal, false;
    if fee.Some? {
      grand := grand + fee.value;
    }
    if minimum.Some? {
      below := itemTotal < minimum.value;
    }
    figures := Figures(itemTotal, paid, unpaid, grand, below);
  }

  /** orders.go: the order page adds the items themselves, and comes to the same figures. */
  method WriteDetail(items: seq<Item>, fee: Option<int>, minimum: Option<int>) returns (figures: Figures)
    ensures figures == FiguresOf(items, fee, minimum)
    ensures figures.items == SumSeq(items, Total()) && figures.unpaid + figures.paid == figures.items
    ensures figures.grand == figures.items + if fee.Some? then fee.value else 0
    ensures figures.belowMinimum <==> minimum.Some? && figures.items < minimum.value
  {
    OwedAndSettledMakeTheTotal(items);
    var itemTotal, paid, unpaid := 0, 0, 0;
    for i := 0 to |items|
      invariant itemTotal == SumSeq(items[..i], Total())
      invariant paid == SumSeq(items[..i], Settled()) && unpaid == SumSeq(items[..i], Owed())
    {
      assert items[..i + 1] == items[..i] + [items[i]];
      SumSnoc(items[..i], items[i], Total());
      SumSnoc(items[..i], items[i], Settled());
      SumSnoc(items[..i], items[i], Owed());
      var total := LineTotalCents(items[i]);
      itemTotal := itemTotal + total;
      if items[i].paid {
        paid := paid + total;
      } else {
        unpaid := unpaid + total;
      }
    }
    assert items[..|items|] == items;
    var grand, below := itemTotal, false;
    if fee.Some? {
      grand := grand + fee.value;
    }
    if minimum.Some? {
      below := itemTotal < minimum.value;
    }
    figures := Figures(itemTotal, paid, unpaid, grand, below);
  }

  // ----- the order in which items come -----

  /** Counts, totals and prices of a line do not depend on the order of the items. */
  lemma ArrangementDoesNotMatter(items: seq<Item>, others: seq<Item>, ids: map<Id, string>,
                                 lower: char -> char, k: Key)
    requires multiset(items) == multiset(others)
    ensures k in KeysOf(items, ByKey(lower)) <==> k in KeysOf(others, ByKey(lower))
    ensures k in KeysOf(items, ByKey(lower)) ==>
      var a, b := LineFor(items, ids, lower, k), LineFor(others, ids, lower, k);
      && a.count == b.count && a.total == b.total && a.unitPrice == b.unitPrice && a.externalId == b.externalId
  {
    var these, those := Those(items, ByKey(lower), k), Those(others, ByKey(lower), k);
    ThosePermute(items, others, ByKey(lower), k);
    ThoseAreThere(items, ByKey(lower), k);
    ThoseAreThere(others, ByKey(lower), k);
    assert |multiset(these)| == |these| && |multiset(those)| == |those|;
    SumPermutes(these, those, Quantity());
    SumPermutes(these, those, Total());
    if these != [] {
      assert ByKey(lower)(these[0]) == k && ByKey(lower)(those[0]) == k;
    }
  }

  /** How a line reads is how its first item read. */
  lemma FirstItemIsShown(items: seq<Item>, ids: map<Id, string>, lower: char -> char, i: nat)
    requires i < |items| && forall j | 0 <= j < i :: KeyOf(items[j], lower) != KeyOf(items[i], lower)
    ensures var k := KeyOf(items[i], lower);
            && k in KeysOf(items, ByKey(lower))
            && LineFor(items, ids, lower, k).name == items[i].name
            && LineFor(items, ids, lower, k).note == NoteShown(items[i].note)
            && LineFor(items, ids, lower, k).modifications == Names(items[i])
  {
    assert forall j | 0 <= j < |items| :: ByKey(lower)(items[j]) == KeyOf(items[j], lower);
    FirstOfThose(items, ByKey(lower), i);
    ThoseAreThere(items, ByKey(lower), KeyOf(items[i], lower));
  }

  // ----- the lines, said of the items alone -----

  /** The items alike to this one, in their order. */
  function AlikeTo(items: seq<Item>, a: Item, lower: char -> char): seq<Item> {
    if items == [] then [] else
    AlikeTo(items[..|items| - 1], a, lower)
    + (if Alike(items[|items| - 1], a, lower) then [items[|items| - 1]] else [])
  }

  ghost predicate AllStorable(items: seq<Item>) {
    forall i | i in items :: forall e | e in i.extras :: Storable(e.name)
  }

  lemma {:induction false} ThoseAreAlike(items: seq<Item>, a: Item, lower: char -> char)
    requires AllStorable(items) && AllStorable([a])
    ensures Those(items, ByKey(lower), KeyOf(a, lower)) == AlikeTo(items, a, lower)
  {
    hide Alike, KeyOf;
    if items != [] {
      var front, last := items[..|items| - 1], items[|items| - 1];
      assert last in items && a in [a];
      ThoseAreAlike(front, a, lower);
      OneLineIff(last, a, lower);
    }
  }

  /** These are where the keys come first, in the order of the items. */
  ghost predicate Firsts(items: seq<Item>, lower: char -> char, firsts: seq<nat>) {
    var keys := KeysOf(items, ByKey(lower));
    && |firsts| == |keys|
    && (forall k | 0 <= k < |keys| :: firsts[k] < |items| && KeyOf(items[firsts[k]], lower) == keys[k])
    && (forall k, i | 0 <= k < |keys| && 0 <= i < firsts[k] :: KeyOf(items[i], lower) != keys[k])
    && (forall j, k | 0 <= j < k < |keys| :: firsts[j] < firsts[k])
  }

  lemma KeysGrow(front: seq<Item>, last: Item, lower: char -> char)
    ensures var keys, k := KeysOf(front, ByKey(lower)), KeyOf(last, lower);
            KeysOf(front + [last], ByKey(lower)) == if k in keys then keys else keys + [k]
    ensures forall i | 0 <= i < |front| :: KeyOf(front[i], lower) in KeysOf(front, ByKey(lower))
  {
    hide KeyOf;
    assert (front + [last])[..|front|] == front;
    KeysOfIsExact(front, ByKey(lower));
    assert forall i | 0 <= i < |front| :: front[i] in front && ByKey(lower)(front[i]) == KeyOf(front[i], lower);
  }

  lemma {:induction false} KeysComeFirst(items: seq<Item>, lower: char -> char) returns (firsts: seq<nat>)
    ensures Firsts(items, lower, firsts)
  {
    hide KeyOf;
    firsts := [];
    if items != [] {
      var n: nat := |items| - 1;
      var front, last := items[..n], items[n];
      assert items == front + [last];
      firsts := KeysComeFirst(front, lower);
      KeysGrow(front, last, lower);
      hide KeysOf;
      if KeyOf(last, lower) !in KeysOf(front, ByKey(lower)) {
        firsts := firsts + [n];
      }
    }
  }

  /** A line that reads as its first item reads and counts those alike to it. */
  predicate LineReads(line: Line, items: seq<Item>, first: Item, ids: map<Id, string>, lower: char -> char) {
    var group := AlikeTo(items, first, lower);
    && line.name == first.name && line.unitPrice == first.unitPrice
    && line.externalId == (if first.dish in ids then ids[first.dish] else "")
    && line.note == (if TrimSpace(first.note) == "" then None else Some(TrimSpace(first.note)))
    && multiset(line.modifications) == multiset(seq(|first.extras|, k requires 0 <= k < |first.extras| => first.extras[k].name))
    && line.count == SumSeq(group, (i: Item) => i.quantity)
    && line.total == SumSeq(group, (i: Item) => i.quantity * (i.unitPrice + SumSeq(i.extras, (e: Extra) => e.delta)))
  }

  lemma LineOfReads(items: seq<Item>, ids: map<Id, string>, lower: char -> char, first: Item)
    requires AlikeTo(items, first, lower) != [] && AlikeTo(items, first, lower)[0] == first
    ensures LineReads(LineOf(AlikeTo(items, first, lower), ids), items, first, ids, lower)
  {
    StableSortPermutes(Mapped(first.extras, NameOf()), ByBytes());
    NamesMapped(first);
    hide AlikeTo, SumSeq, TrimSpace, StableSort;
    SameSums(AlikeTo(items, first, lower));
  }

  lemma LineForReads(items: seq<Item>, ids: map<Id, string>, lower: char -> char, i: nat)
    requires AllStorable(items) && i < |items| && forall j | 0 <= j < i :: KeyOf(items[j], lower) != KeyOf(items[i], lower)
    ensures KeyOf(items[i], lower) in KeysOf(items, ByKey(lower))
    ensures LineReads(LineFor(items, ids, lower, KeyOf(items[i], lower)), items, items[i], ids, lower)
  {
    hide KeyOf, AlikeTo, KeysOf, LineReads, LineOf, AllStorable, Those;
    var first := items[i];
    assert ByKey(lower)(first) == KeyOf(first, lower);
    assert forall j | 0 <= j < |items| :: ByKey(lower)(items[j]) == KeyOf(items[j], lower);
    FirstOfThose(items, ByKey(lower), i);
    ThoseAreThere(items, ByKey(lower), KeyOf(first, lower));
    OneStorable(items, first);
    ThoseAreAlike(items, first, lower);
    LineOfReads(items, ids, lower, first);
  }

  lemma OneStorable(items: seq<Item>, a: Item)
    requires AllStorable(items) && a in items
    ensures AllStorable([a])
  {}

  lemma SameSums(group: seq<Item>)
    ensures SumSeq(group, Quantity()) == SumSeq(group, (i: Item) => i.quantity)
    ensures SumSeq(group, Total()) == SumSeq(group, (i: Item) => i.quantity * (i.unitPrice + SumSeq(i.extras, (e: Extra) => e.delta)))
  {
    forall i: Item
      ensures LineTotal(i) == i.quantity * (i.unitPrice + SumSeq(i.extras, (e: Extra) => e.delta))
    {
      SumAlong(i.extras, i.extras, Delta(), (e: Extra) => e.delta);
    }
    SumAlong(group, group, Quantity(), (i: Item) => i.quantity);
    SumAlong(group, group, Total(), (i: Item) => i.quantity * (i.unitPrice + SumSeq(i.extras, (e: Extra) => e.delta)));
  }

  lemma AlikeIff(items: seq<Item>, i: nat, j: nat, lower: char -> char)
    requires AllStorable(items) && i < |items| && j < |items|
    ensures Alike(items[i], items[j], lower) <==> KeyOf(items[i], lower) == KeyOf(items[j], lower)
  {
    assert items[i] in items && items[j] in items;
    hide Alike, KeyOf;
    OneLineIff(items[i], items[j], lower);
  }

  lemma KeyIsThere(items: seq<Item>, i: nat, lower: char -> char) returns (k: nat)
    requires i < |items|
    ensures k < |KeysOf(items, ByKey(lower))| && KeysOf(items, ByKey(lower))[k] == KeyOf(items[i], lower)
  {
    hide KeyOf, KeysOf;
    var keys := KeysOf(items, ByKey(lower));
    KeysOfIsExact(items, ByKey(lower));
    assert items[i] in items && ByKey(lower)(items[i]) == KeyOf(items[i], lower);
    k :| 0 <= k < |keys| && keys[k] == KeyOf(items[i], lower);
  }

  lemma LinesArePermuted(items: seq<Item>, ids: map<Id, string>, lower: char -> char)
    ensures multiset(AggregatedLines(items, ids, lower)) == multiset(Lines(items, ids, lower))
    ensures |AggregatedLines(items, ids, lower)| == |Lines(items, ids, lower)| == |KeysOf(items, ByKey(lower))|
    ensures Distinct(KeysOf(items, ByKey(lower)))
    ensures forall n | 0 <= n < |Lines(items, ids, lower)| ::
      Lines(items, ids, lower)[n] == LineFor(items, ids, lower, KeysOf(items, ByKey(lower))[n])
  {
    hide KeysOf, LineFor, StableSort;
    var lines := Lines(items, ids, lower);
    StableSortPermutes(lines, MenuLess(lower));
    assert |multiset(AggregatedLines(items, ids, lower))| == |multiset(lines)|;
    KeysOfIsExact(items, ByKey(lower));
  }

  /** One of these, the item itself or one before it, is alike to it. */
  predicate HasItsKind(items: seq<Item>, firsts: seq<nat>, i: nat, lower: char -> char)
    requires i < |items|
  {
    exists k :: 0 <= k < |firsts| && firsts[k] <= i && Alike(items[firsts[k]], items[i], lower)
  }

  /**
   * The lines are the kinds of item there are: one for each item none before it is alike to, reading as
   * that one and counting all alike to it. Items are on one line if and only if they are alike.
   */
  lemma LinesAreKinds(items: seq<Item>, ids: map<Id, string>, lower: char -> char)
    returns (firsts: seq<nat>, lines: seq<Line>)
    requires AllStorable(items)
    ensures multiset(AggregatedLines(items, ids, lower)) == multiset(lines)
    ensures |AggregatedLines(items, ids, lower)| == |lines| == |firsts|
    ensures forall k | 0 <= k < |firsts| :: firsts[k] < |items| && LineReads(lines[k], items, items[firsts[k]], ids, lower)
    ensures forall j, k | 0 <= j < k < |firsts| ::
      firsts[j] < firsts[k] < |items| && !Alike(items[firsts[j]], items[firsts[k]], lower)
    ensures forall i | 0 <= i < |items| :: HasItsKind(items, firsts, i, lower)
  {
    hide KeyOf, Alike, KeysOf, Lines, AggregatedLines, LineFor, LineReads, AllStorable;
    firsts := KeysComeFirst(items, lower);
    lines := Lines(items, ids, lower);
    LinesArePermuted(items, ids, lower);
    forall k | 0 <= k < |firsts|
      ensures LineReads(lines[k], items, items[firsts[k]], ids, lower)
    {
      LineForReads(items, ids, lower, firsts[k]);
    }
    forall j, k | 0 <= j < k < |firsts|
      ensures !Alike(items[firsts[j]], items[firsts[k]], lower)
    {
      AlikeIff(items, firsts[j], firsts[k], lower);
    }
    forall i | 0 <= i < |items|
      ensures HasItsKind(items, firsts, i, lower)
    {
      var k := KeyIsThere(items, i, lower);
      AlikeIff(items, firsts[k], i, lower);
    }
  }
}
