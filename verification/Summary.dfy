/**
 * The aggregated order of internal/api/summary.go: identical items on one line, everyone's own items
 * and share, and the totals, which the order page (internal/api/orders.go) works out a second way.
 */
module Summary {
  import opened Prelude
  import opened Text
  import opened Sorting
  import opened Sums
  import opened MenuOrder

  type Id = nat

  /** A selected modification, snapshotted. */
  datatype Extra = Extra(name: string, delta: int)

  datatype Item = Item(
    user: Id, userName: string, dish: Id, quantity: int, name: string, unitPrice: int,
    note: string, extras: seq<Extra>, paid: bool)

  // ----- one item -----

  function Delta(): Extra -> int { (e: Extra) => e.delta }

  function LineTotal(i: Item): int {
    i.quantity * (i.unitPrice + SumSeq(i.extras, Delta()))
  }

  method LineTotalCents(i: Item) returns (total: int)
    ensures total == LineTotal(i)
  {
    var unit := i.unitPrice;
    for m := 0 to |i.extras|
      invariant unit == i.unitPrice + SumSeq(i.extras[..m], Delta())
    {
      assert i.extras[..m + 1] == i.extras[..m] + [i.extras[m]];
      SumSnoc(i.extras[..m], i.extras[m], Delta());
      unit := unit + i.extras[m].delta;
    }
    assert i.extras[..|i.extras|] == i.extras;
    total := i.quantity * unit;
  }

  function Total(): Item -> int { i => LineTotal(i) }
  function Owed(): Item -> int { (i: Item) => if i.paid then 0 else LineTotal(i) }
  function Settled(): Item -> int { (i: Item) => if i.paid then LineTotal(i) else 0 }
  function Quantity(): Item -> int { (i: Item) => i.quantity }

  // ----- the key -----

  function ByBytes(): (string, string) -> bool { (a, b) => StringLess(a, b) }

  function NameOf(): Extra -> string { (e: Extra) => e.name }

  /** The sorted names of what was ticked. */
  function Names(i: Item): seq<string> {
    StableSort(Mapped(i.extras, NameOf()), ByBytes())
  }

  method ModificationNames(i: Item) returns (names: seq<string>)
    ensures names == Names(i)
    ensures multiset(names) == multiset(Mapped(i.extras, NameOf())) && Sorted(names, ByBytes())
  {
    names := [];
    for m := 0 to |i.extras|
      invariant names == Mapped(i.extras[..m], NameOf())
    {
      names := names + [i.extras[m].name];
    }
    assert i.extras[..|i.extras|] == i.extras;
    ByBytesIsTotal();
    StableSortSorts(names, ByBytes());
    StableSortPermutes(names, ByBytes());
    names := StableSort(names, ByBytes());
  }

  function NormaliseNote(note: string, lower: char -> char): string {
    Lowered(TrimSpace(note), lower)
  }

  const NUL: char := '\0'

  /** strings.Join(names, "\x00"). */
  function Joined(names: seq<string>): string {
    if names == [] then "" else if |names| == 1 then names[0] else names[0] + [NUL] + Joined(names[1..])
  }

  datatype Key = Key(dish: Id, modifications: string, note: string, unitPrice: int)

  function KeyOf(i: Item, lower: char -> char): Key {
    Key(i.dish, Joined(Names(i)), NormaliseNote(i.note, lower), i.unitPrice)
  }

  function ByKey(lower: char -> char): Item -> Key { i => KeyOf(i, lower) }

  /** What the columns hold: a text has no NUL in it, and a modification's name is not empty (000007:134). */
  predicate Storable(name: string) {
    name != "" && '\0' !in name
  }

  lemma {:induction false} FirstNameEnds(a: string, b: string, x: string, y: string)
    requires NUL !in a && NUL !in b && a + [NUL] + x == b + [NUL] + y
    ensures a == b && x == y
  {
    var s := a + [NUL] + x;
    assert forall i | 0 <= i < |a| :: s[i] == a[i] && a[i] in a;
    assert forall i | 0 <= i < |b| :: s[i] == b[i] && b[i] in b;
    assert s[|a|] == NUL && s[|b|] == NUL;
    assert s[..|a|] == a && s[..|b|] == b;
    assert s[|a| + 1..] == x && s[|b| + 1..] == y;
  }

  lemma ManyNamesJoinWithNul(names: seq<string>)
    requires |names| > 1
    ensures NUL in Joined(names)
  {
    assert Joined(names)[|names[0]|] == NUL;
  }

  /** The NUL join loses nothing of names that can be stored. */
  lemma {:induction false} JoinedIsInjective(a: seq<string>, b: seq<string>)
    requires forall n | n in a + b :: Storable(n)
    requires Joined(a) == Joined(b)
    ensures a == b
  {
    assert forall n | n in a :: n in a + b && Storable(n);
    assert forall n | n in b :: n in a + b && Storable(n);
    if a == [] || b == [] {
      assert a != [] ==> Storable(a[0]);
      assert b != [] ==> Storable(b[0]);
    } else {
      assert Storable(a[0]) && Storable(b[0]);
      if |a| > 1 { ManyNamesJoinWithNul(a); }
      if |b| > 1 { ManyNamesJoinWithNul(b); }
      if |a| == 1 && |b| == 1 {
        assert a == [a[0]] && b == [b[0]];
      } else if |a| > 1 && |b| > 1 {
        FirstNameEnds(a[0], b[0], Joined(a[1..]), Joined(b[1..]));
        JoinedIsInjective(a[1..], b[1..]);
        assert a == [a[0]] + a[1..] && b == [b[0]] + b[1..];
      }
    }
  }

  lemma ByBytesIsTotal()
    ensures StrictWeak(ByBytes())
    ensures forall a, b :: Level(ByBytes(), a, b) ==> a == b
  {
    forall a ensures !ByBytes()(a, a) { StringLessIrreflexive(a); }
    forall a, b, c | ByBytes()(a, b) && ByBytes()(b, c) ensures ByBytes()(a, c) { StringLessTransitive(a, b, c); }
    forall a, b, c | !ByBytes()(a, b) && !ByBytes()(b, c) ensures !ByBytes()(a, c) { StringNotLess(a, b, c); }
    forall a, b | Level(ByBytes(), a, b) ensures a == b { StringLessTotal(a, b); }
  }

  /** The same dish, price, ticks and wish, the wish but for case and the space around it. */
  predicate Alike(a: Item, b: Item, lower: char -> char) {
    && a.dish == b.dish && a.unitPrice == b.unitPrice && SameFolded(TrimSpace(a.note), TrimSpace(b.note), lower)
    && multiset(seq(|a.extras|, i requires 0 <= i < |a.extras| => a.extras[i].name))
       == multiset(seq(|b.extras|, i requires 0 <= i < |b.extras| => b.extras[i].name))
  }

  lemma NamesMapped(i: Item)
    ensures Mapped(i.extras, NameOf()) == seq(|i.extras|, k requires 0 <= k < |i.extras| => i.extras[k].name)
  {}

  /** Two items share a line exactly when they are alike. */
  lemma OneLineIff(a: Item, b: Item, lower: char -> char)
    requires forall e | e in a.extras + b.extras :: Storable(e.name)
    ensures KeyOf(a, lower) == KeyOf(b, lower) <==> Alike(a, b, lower)
  {
    LoweredAlikeIff(TrimSpace(a.note), TrimSpace(b.note), lower);
    NamesMapped(a);
    NamesMapped(b);
    NamesJoinAlikeIff(a, b);
    hide Names, TrimSpace, Lowered, SameFolded;
  }

  lemma NamesJoinAlikeIff(a: Item, b: Item)
    requires forall e | e in a.extras + b.extras :: Storable(e.name)
    ensures Joined(Names(a)) == Joined(Names(b)) <==>
      multiset(Mapped(a.extras, NameOf())) == multiset(Mapped(b.extras, NameOf()))
  {
    var an, bn := Mapped(a.extras, NameOf()), Mapped(b.extras, NameOf());
    ByBytesIsTotal();
    TotalSortDependsOnElements(an, bn, ByBytes());
    if Joined(Names(a)) == Joined(Names(b)) {
      StableSortPermutes(an, ByBytes());
      StableSortPermutes(bn, ByBytes());
      forall n | n in Names(a) + Names(b)
        ensures Storable(n)
      {
        assert n in multiset(an) || n in multiset(bn);
        assert n in an || n in bn;
        assert forall e | e in a.extras :: e in a.extras + b.extras;
        assert forall e | e in b.extras :: e in a.extras + b.extras;
      }
      JoinedIsInjective(Names(a), Names(b));
    }
  }

  // ----- the lines -----

  function NoteShown(note: string): Option<string> {
    if TrimSpace(note) == "" then None else Some(TrimSpace(note))
  }

  function IdIn(ids: map<Id, string>, dish: Id): string {
    if dish in ids then ids[dish] else ""
  }

  /** One line for a group: how it reads comes from the first of it, what it counts from all. */
  function LineOf(group: seq<Item>, ids: map<Id, string>): Line
    requires group != []
  {
    var first := group[0];
    Line(first.name, IdIn(ids, first.dish), Names(first), NoteShown(first.note),
         SumSeq(group, Quantity()), first.unitPrice, SumSeq(group, Total()))
  }

  function LineFor(items: seq<Item>, ids: map<Id, string>, lower: char -> char, k: Key): Line
    requires k in KeysOf(items, ByKey(lower))
  {
    ThoseAreThere(items, ByKey(lower), k);
    LineOf(Those(items, ByKey(lower), k), ids)
  }

  function Lines(items: seq<Item>, ids: map<Id, string>, lower: char -> char): seq<Line> {
    var keys := KeysOf(items, ByKey(lower));
    seq(|keys|, i requires 0 <= i < |keys| => LineFor(items, ids, lower, keys[i]))
  }

  function AggregatedLines(items: seq<Item>, ids: map<Id, string>, lower: char -> char): seq<Line> {
    StableSort(Lines(items, ids, lower), MenuLess(lower))
  }

  lemma LineGrows(group: seq<Item>, i: Item, ids: map<Id, string>)
    requires group != []
    ensures var line := LineOf(group, ids);
            LineOf(group + [i], ids) == line.(count := line.count + i.quantity, total := line.total + LineTotal(i))
  {
    SumSnoc(group, i, Quantity());
    SumSnoc(group, i, Total());
  }

  lemma LineStarts(i: Item, ids: map<Id, string>)
    ensures LineOf([i], ids) ==
      Line(i.name, IdIn(ids, i.dish), Names(i), NoteShown(i.note), i.quantity, i.unitPrice, LineTotal(i))
  {
    assert [] + [i] == [i];
    SumSnoc([], i, Quantity());
    SumSnoc([], i, Total());
  }

  /** One more item starts a line or joins one, and touches no other. */
  lemma OneMoreItem(items: seq<Item>, item: Item, ids: map<Id, string>, lower: char -> char)
    ensures var k, keys := KeyOf(item, lower), KeysOf(items, ByKey(lower));
            KeysOf(items + [item], ByKey(lower)) == if k in keys then keys else keys + [k]
    ensures forall j | j in KeysOf(items, ByKey(lower)) && j != KeyOf(item, lower) ::
              LineFor(items + [item], ids, lower, j) == LineFor(items, ids, lower, j)
    ensures var k := KeyOf(item, lower);
            LineFor(items + [item], ids, lower, k) ==
              if k in KeysOf(items, ByKey(lower)) then
                var line := LineFor(items, ids, lower, k);
                line.(count := line.count + item.quantity, total := line.total + LineTotal(item))
              else
                Line(item.name, IdIn(ids, item.dish), Names(item), NoteShown(item.note),
                     item.quantity, item.unitPrice, LineTotal(item))
  {
    hide LineOf, Names, NoteShown, KeyOf;
    var k := KeyOf(item, lower);
    assert (items + [item])[..|items|] == items;
    assert ByKey(lower)(item) == k;
    var group := Those(items, ByKey(lower), k);
    ThoseAreThere(items, ByKey(lower), k);
    if group != [] {
      LineGrows(group, item, ids);
    } else {
      assert Those(items + [item], ByKey(lower), k) == [item];
      LineStarts(item, ids);
    }
    forall j | j in KeysOf(items, ByKey(lower)) && j != k
      ensures LineFor(items + [item], ids, lower, j) == LineFor(items, ids, lower, j)
    {
      assert Those(items + [item], ByKey(lower), j) == Those(items, ByKey(lower), j);
    }
  }

  lemma NoKeysYet(lower: char -> char)
    ensures KeysOf([], ByKey(lower)) == []
  {}

  method Aggregate(items: seq<Item>, ids: map<Id, string>, lower: char -> char) returns (out: seq<Line>)
    ensures out == AggregatedLines(items, ids, lower)
    ensures Sorted(out, MenuLess(lower))
  {
    hide LineFor, KeysOf, Names, NoteShown, LineTotal;
    var lines: map<Key, Line> := map[];
    var order: seq<Key> := [];
    NoKeysYet(lower);
    for i := 0 to |items|
      invariant order == KeysOf(items[..i], ByKey(lower))
      invariant forall k :: k in lines <==> k in order
      invariant forall k | k in order :: lines[k] == LineFor(items[..i], ids, lower, k)
    {
      var item := items[i];
      var names := ModificationNames(item);
      var k := Key(item.dish, Joined(names), NormaliseNote(item.note, lower), item.unitPrice);
      OneMoreItem(items[..i], item, ids, lower);
      assert items[..i + 1] == items[..i] + [item];
      var line := if k in lines then lines[k]
                  else Line(item.name, IdIn(ids, item.dish), names, NoteShown(item.note), 0, item.unitPrice, 0);
      if k !in lines {
        order := order + [k];
      }
      var total := LineTotalCents(item);
      lines := lines[k := line.(count := line.count + item.quantity, total := line.total + total)];
    }
    assert items[..|items|] == items;
    out := [];
    for n := 0 to |order|
      invariant out == Lines(items, ids, lower)[..n]
    {
      out := out + [lines[order[n]]];
    }
    assert out == Lines(items, ids, lower);
    MenuLessIsStrictWeak(lower);
    StableSortSorts(out, MenuLess(lower));
    out := StableSort(out, MenuLess(lower));
  }
}
