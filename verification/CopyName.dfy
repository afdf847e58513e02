/**
 * Naming copies (internal/db/menucopy.go): "Döner (copy)", then "Döner (copy 2)", until one is free.
 * The loop has no bound of its own; that it ends is a pigeonhole argument.
 */
module CopyName {
  import opened Text

  const MAX_COPY_NAME_LENGTH := 200
  const MAX_COPY_LABEL_LENGTH := 32

  /** What a map can hold: its length is an int. */
  const MAX_INT := 0x7FFF_FFFF_FFFF_FFFF

  /** strings.ToLower on what is no letter. */
  predicate KeepsMarks(lower: char -> char) {
    && lower(' ') == ' ' && lower('(') == '(' && lower(')') == ')'
    && forall c | IsDigit(c) :: lower(c) == c
  }

  function Suffix(word: string, n: nat): string {
    if n > 1 then " (" + word + " " + Decimal(n) + ")" else " (" + word + ")"
  }

  /** The base, shortened rather than the suffix. */
  function Shortened(base: string, room: nat): string {
    if |base| > room then TrimSpace(base[..room]) else base
  }

  predicate LabelFits(word: string) { |word| <= MAX_COPY_LABEL_LENGTH }

  lemma MaxIntHasNineteenDigits()
    ensures MAX_INT < Pow10(19)
  {
    assert Pow10(7) == 10000000;
    assert Pow10(13) == 1000000 * Pow10(7);
    assert Pow10(19) == 1000000 * Pow10(13);
  }

  /** The label's bound leaves room for any counter an int can hold, so the slice never goes below zero. */
  lemma SuffixFits(word: string, n: nat)
    requires LabelFits(word) && n <= MAX_INT
    ensures |Suffix(word, n)| <= MAX_COPY_LABEL_LENGTH + 23
  {
    hide Decimal;
    MaxIntHasNineteenDigits();
    DecimalLength(n, 19, Pow10(19));
  }

  lemma ShortenedFits(base: string, room: nat)
    ensures |Shortened(base, room)| <= room
  {
    if |base| > room {
      TrimShrinks(base[..room]);
      TrimShrinks(TrimLeft(base[..room]));
    }
  }

  /** The n-th name tried. */
  function NameTried(base: string, word: string, n: nat): (name: string)
    requires LabelFits(word) && n <= MAX_INT
    ensures |name| <= MAX_COPY_NAME_LENGTH
  {
    SuffixFits(word, n);
    ShortenedFits(base, MAX_COPY_NAME_LENGTH - |Suffix(word, n)|);
    Shortened(base, MAX_COPY_NAME_LENGTH - |Suffix(word, n)|) + Suffix(word, n)
  }

  /** What follows the last space is decided by the whole. */
  lemma LastWord(a: string, v: string, b: string, w: string)
    requires ' ' !in v && ' ' !in w && a + " " + v == b + " " + w
    ensures v == w
  {
    var s := a + " " + v;
    assert forall j | |a| < j < |s| :: s[j] == v[j - |a| - 1] && s[j] in v;
    assert forall j | |b| < j < |s| :: s[j] == w[j - |b| - 1] && s[j] in w;
    assert s[|a|] == ' ' && s[|b|] == ' ';
    assert s[|a| + 1..] == v && s[|b| + 1..] == w;
  }

  lemma LoweredDigits(digits: string, lower: char -> char)
    requires KeepsMarks(lower) && AllDigits(digits)
    ensures Lowered(digits, lower) == digits
  {
    assert forall i | 0 <= i < |digits| :: digits[i] in digits;
  }

  lemma LoweredEnding(front: string, digits: string, lower: char -> char)
    requires KeepsMarks(lower) && AllDigits(digits)
    ensures Lowered(front + " " + digits + ")", lower) == Lowered(front, lower) + " " + (digits + ")")
  {
    LoweredDigits(digits, lower);
    LoweredConcat(front, " ", lower);
    LoweredConcat(front + " ", digits, lower);
    LoweredConcat(front + " " + digits, ")", lower);
    assert Lowered(" ", lower) == " " && Lowered(")", lower) == ")";
  }

  lemma Reassociate(base: string, word: string, digits: string)
    ensures base + (" (" + word + " " + digits + ")") == (base + " (" + word) + " " + digits + ")"
  {}

  /** A counted name ends in its number, lower case or not. */
  lemma CountedNameEnds(base: string, word: string, n: nat, lower: char -> char)
    requires KeepsMarks(lower) && LabelFits(word) && 1 < n <= MAX_INT
    ensures exists front :: Lowered(NameTried(base, word, n), lower) == front + " " + (Decimal(n) + ")")
  {
    hide Decimal, Shortened, Lowered;
    SuffixFits(word, n);
    var kept := Shortened(base, MAX_COPY_NAME_LENGTH - |Suffix(word, n)|);
    Reassociate(kept, word, Decimal(n));
    LoweredEnding(kept + " (" + word, Decimal(n), lower);
  }

  /** Two counters never give the same name, whatever was cut off the base. */
  lemma CountedNamesDiffer(base: string, word: string, m: nat, n: nat, lower: char -> char)
    requires KeepsMarks(lower) && LabelFits(word) && 1 < m <= MAX_INT && 1 < n <= MAX_INT
    requires Lowered(NameTried(base, word, m), lower) == Lowered(NameTried(base, word, n), lower)
    ensures m == n
  {
    hide Decimal, Shortened, Suffix, NameTried, Lowered;
    CountedNameEnds(base, word, m, lower);
    CountedNameEnds(base, word, n, lower);
    var fm :| Lowered(NameTried(base, word, m), lower) == fm + " " + (Decimal(m) + ")");
    var fn :| Lowered(NameTried(base, word, n), lower) == fn + " " + (Decimal(n) + ")");
    LastWord(fm, Decimal(m) + ")", fn, Decimal(n) + ")");
    assert (Decimal(m) + ")")[..|Decimal(m)|] == Decimal(m);
    assert (Decimal(n) + ")")[..|Decimal(n)|] == Decimal(n);
    DecimalInjective(m, n);
  }

  lemma ThisIsTried(base: string, word: string, n: nat)
    requires LabelFits(word) && n <= MAX_INT
    ensures |Suffix(word, n)| <= MAX_COPY_NAME_LENGTH
    ensures var room := MAX_COPY_NAME_LENGTH - |Suffix(word, n)|;
            NameTried(base, word, n) == (if |base| > room then TrimSpace(base[..room]) else base) + Suffix(word, n)
  {
    hide Suffix;
    SuffixFits(word, n);
  }

  ghost function Tries(base: string, word: string, count: nat, lower: char -> char): set<string>
    requires LabelFits(word) && count <= MAX_INT
  {
    set m | 2 <= m < count :: Lowered(NameTried(base, word, m), lower)
  }

  lemma {:induction false} TriesAreMany(base: string, word: string, count: nat, lower: char -> char)
    requires KeepsMarks(lower) && LabelFits(word) && 2 <= count <= MAX_INT
    ensures |Tries(base, word, count, lower)| == count - 2
  {
    hide NameTried, Lowered;
    if count > 2 {
      TriesAreMany(base, word, count - 1, lower);
      var last := Lowered(NameTried(base, word, count - 1), lower);
      forall m | 2 <= m < count - 1
        ensures Lowered(NameTried(base, word, m), lower) != last
      {
        if Lowered(NameTried(base, word, m), lower) == last { CountedNamesDiffer(base, word, m, count - 1, lower); }
      }
      assert Tries(base, word, count, lower) == Tries(base, word, count - 1, lower) + {last};
    }
  }

  /** The pigeonhole: names that were all taken are no more than there are. */
  lemma NoMoreRounds(base: string, word: string, count: nat, lower: char -> char, names: set<string>)
    requires KeepsMarks(lower) && LabelFits(word) && 2 <= count <= MAX_INT
    requires forall m | 2 <= m < count :: Lowered(NameTried(base, word, m), lower) in names
    ensures count <= |names| + 2
  {
    TriesAreMany(base, word, count, lower);
    SubsetIsNoLarger(Tries(base, word, count, lower), names);
  }

  lemma {:induction false} SubsetIsNoLarger<T>(small: set<T>, large: set<T>)
    requires small <= large
    ensures |small| <= |large|
  {
    if small != {} {
      var x :| x in small;
      SubsetIsNoLarger(small - {x}, large - {x});
    }
  }

  /** The lower-cased names in use, which CopyName adds to. */
  class Taken {
    var names: set<string>

    constructor ()
      ensures names == {}
    {
      names := {};
    }

    /** The first name nobody has, found within |taken| + 2 rounds. */
    method CopyName(base: string, word: string, lower: char -> char) returns (name: string, ghost n: nat)
      requires KeepsMarks(lower) && LabelFits(word) && |names| <= MAX_INT - 3
      modifies this
      ensures 1 <= n <= |old(names)| + 2
      ensures name == NameTried(base, word, n)
      ensures Lowered(name, lower) !in old(names)
      ensures forall m | 1 <= m < n :: Lowered(NameTried(base, word, m), lower) in old(names)
      ensures names == old(names) + {Lowered(name, lower)}
    {
      hide Suffix, NameTried, Lowered;
      var count := 1;
      while true
        invariant 1 <= count <= |names| + 2 && names == old(names)
        invariant forall m | 1 <= m < count :: Lowered(NameTried(base, word, m), lower) in names
        decreases |names| + 2 - count
      {
        SuffixFits(word, count);
        var suffix := Suffix(word, count);
        var room := MAX_COPY_NAME_LENGTH - |suffix|;
        var trimmed := base;
        if |trimmed| > room {
          trimmed := TrimSpace(trimmed[..room]);
        }
        name := trimmed + suffix;
        ThisIsTried(base, word, count);
        if Lowered(name, lower) !in names {
          n := count;
          names := names + {Lowered(name, lower)};
          return;
        }
        count := count + 1;
        NoMoreRounds(base, word, count, lower, names);
      }
    }
  }

  // ----- copying a whole category -----

  ghost predicate InUse(name: string, names: seq<string>, lower: char -> char) {
    exists j :: 0 <= j < |names| && SameFolded(name, names[j], lower)
  }

  /** menu_item_name_key and menu_category_name_key: no two living names alike but for case. */
  ghost predicate UniqueNames(names: seq<string>, lower: char -> char) {
    forall i, j | 0 <= i < j < |names| :: !SameFolded(names[i], names[j], lower)
  }

  /** The first of the names tried that none of these is. */
  ghost predicate FirstFree(copy: string, base: string, word: string, names: seq<string>, lower: char -> char)
    requires LabelFits(word)
  {
    exists n: nat :: 1 <= n <= MAX_INT && copy == NameTried(base, word, n) && !InUse(copy, names, lower)
      && forall m: nat | 1 <= m < n :: InUse(NameTried(base, word, m), names, lower)
  }

  /** How the names tried look: the label in brackets, numbered from the second on, after the base or as much of it as fits. */
  lemma NamesTriedLook(base: string, word: string, n: nat) returns (kept: string)
    requires LabelFits(word) && 1 <= n <= MAX_INT
    ensures NameTried(base, word, n) == kept + (if n == 1 then " (" + word + ")" else " (" + word + " " + Decimal(n) + ")")
    ensures var room := 200 - |if n == 1 then " (" + word + ")" else " (" + word + " " + Decimal(n) + ")"|;
            room >= 0 && (if |base| <= room then kept == base else kept == TrimSpace(base[..room]))
  {
    SuffixFits(word, n);
    kept := Shortened(base, MAX_COPY_NAME_LENGTH - |Suffix(word, n)|);
  }

  /** The set is the living names' lower-case forms. */
  ghost predicate Holds(names: set<string>, living: seq<string>, lower: char -> char) {
    forall folded :: folded in names <==> exists j :: 0 <= j < |living| && folded == Lowered(living[j], lower)
  }

  lemma HoldsWhatIsInUse(names: set<string>, living: seq<string>, name: string, lower: char -> char)
    requires Holds(names, living, lower)
    ensures Lowered(name, lower) in names <==> InUse(name, living, lower)
  {
    forall j | 0 <= j < |living|
      ensures Lowered(name, lower) == Lowered(living[j], lower) <==> SameFolded(name, living[j], lower)
    {
      LoweredAlikeIff(name, living[j], lower);
    }
    hide Lowered, SameFolded;
  }

  lemma HoldsOneMore(names: set<string>, living: seq<string>, name: string, lower: char -> char)
    requires Holds(names, living, lower)
    ensures Holds(names + {Lowered(name, lower)}, living + [name], lower)
  {
    hide Lowered;
    var more := living + [name];
    assert more[|living|] == name && forall j | 0 <= j < |living| :: more[j] == living[j];
  }

  /** A name in no use makes one more unique name. */
  lemma StaysUnique(names: seq<string>, name: string, lower: char -> char)
    requires UniqueNames(names, lower) && !InUse(name, names, lower)
    ensures UniqueNames(names + [name], lower)
  {
    forall j | 0 <= j < |names| ensures !SameFolded(names[j], name, lower) {
      assert SameFolded(names[j], name, lower) <==> SameFolded(name, names[j], lower);
    }
    hide SameFolded;
  }

  lemma CopyIsFirstFree(copy: string, base: string, word: string, n: nat, names: set<string>, living: seq<string>, lower: char -> char)
    requires LabelFits(word) && 1 <= n <= MAX_INT && Holds(names, living, lower)
    requires copy == NameTried(base, word, n) && Lowered(copy, lower) !in names
    requires forall m | 1 <= m < n :: Lowered(NameTried(base, word, m), lower) in names
    ensures FirstFree(copy, base, word, living, lower) && !InUse(copy, living, lower)
  {
    hide NameTried, Lowered, InUse, Holds;
    HoldsWhatIsInUse(names, living, copy, lower);
    forall m: nat | 1 <= m < n ensures InUse(NameTried(base, word, m), living, lower) {
      HoldsWhatIsInUse(names, living, NameTried(base, word, m), lower);
    }
  }

  method TakenNames(living: seq<string>, lower: char -> char) returns (taken: Taken)
    ensures fresh(taken) && |taken.names| <= |living|
    ensures Holds(taken.names, living, lower)
  {
    taken := new Taken();
    for i := 0 to |living|
      invariant fresh(taken) && |taken.names| <= i
      invariant Holds(taken.names, living[..i], lower)
    {
      HoldsOneMore(taken.names, living[..i], living[i], lower);
      assert living[..i + 1] == living[..i] + [living[i]];
      taken.names := taken.names + {Lowered(living[i], lower)};
    }
    assert living[..|living|] == living;
  }

  /** Every copy of a category's dishes gets a name the unique index lets through, as does the category. */
  method DuplicateCategory(
      category: string, categories: seq<string>, dishes: seq<string>, living: seq<string>,
      word: string, lower: char -> char)
    returns (copy: string, copies: seq<string>)
    requires KeepsMarks(lower) && LabelFits(word)
    requires |categories| <= MAX_INT - 3 && |living| + |dishes| <= MAX_INT - 3
    requires UniqueNames(categories, lower) && UniqueNames(living, lower)
    ensures FirstFree(copy, category, word, categories, lower) && |copies| == |dishes|
    ensures forall i | 0 <= i < |dishes| :: FirstFree(copies[i], dishes[i], word, living + copies[..i], lower)
    ensures UniqueNames(categories + [copy], lower) && UniqueNames(living + copies, lower)
    ensures |copy| <= 200 && forall c | c in copies :: |c| <= 200
  {
    hide Lowered, NameTried, Suffix, SameFolded, UniqueNames, FirstFree, InUse, Holds;
    var takenCategories := TakenNames(categories, lower);
    ghost var names := takenCategories.names;
    ghost var n;
    copy, n := takenCategories.CopyName(category, word, lower);
    CopyIsFirstFree(copy, category, word, n, names, categories, lower);
    StaysUnique(categories, copy, lower);
    var takenItems := TakenNames(living, lower);
    copies := [];
    assert living + copies == living;
    for i := 0 to |dishes|
      invariant |copies| == i && |takenItems.names| <= |living| + i
      invariant UniqueNames(living + copies, lower) && Holds(takenItems.names, living + copies, lower)
      invariant forall k | 0 <= k < i :: FirstFree(copies[k], dishes[k], word, living + copies[..k], lower)
      invariant forall c | c in copies :: |c| <= 200
    {
      names := takenItems.names;
      var name;
      name, n := takenItems.CopyName(dishes[i], word, lower);
      CopyIsFirstFree(name, dishes[i], word, n, names, living + copies, lower);
      StaysUnique(living + copies, name, lower);
      HoldsOneMore(names, living + copies, name, lower);
      assert living + (copies + [name]) == living + copies + [name];
      assert (copies + [name])[..i] == copies && forall k | 0 <= k < i :: (copies + [name])[..k] == copies[..k];
      copies := copies + [name];
    }
  }
}
