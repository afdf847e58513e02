/** The login limiter (internal/api/ratelimit.go): fixed windows of failures per name and per address. */
module Limiter {
  import opened Prelude
  import opened Text
  import opened Sums

  /** A fixed window of failures. */
  datatype Counter = Counter(failures: nat, expires: int)

  type Counters = map<string, Counter>

  datatype Limits = Limits(perName: int, perAddress: int, window: int, lower: char -> char)

  /** loginKey. */
  function LoginKey(name: string, lower: char -> char): string {
    Lowered(TrimSpace(name), lower)
  }

  /** expireLocked, on one map. */
  function Swept(counters: Counters, now: int): Counters {
    map key | key in counters && now < counters[key].expires :: counters[key]
  }

  /** blockedLocked: a limit of zero or less, or an empty key, blocks nobody. */
  predicate Blocked(counters: Counters, key: string, limit: int) {
    limit > 0 && key != "" && key in counters && counters[key].failures >= limit
  }

  /** bumpLocked. */
  function Bumped(counters: Counters, key: string, now: int, window: int): Counters {
    if key == "" then counters
    else if key in counters then counters[key := counters[key].(failures := counters[key].failures + 1)]
    else counters[key := Counter(1, now + window)]
  }

  predicate Granted(limits: Limits, names: Counters, addresses: Counters, name: string, address: string) {
    && !Blocked(names, LoginKey(name, limits.lower), limits.perName)
    && !Blocked(addresses, address, limits.perAddress)
  }

  class LoginLimiter {
    const limits: Limits
    var names: Counters
    var addresses: Counters

    constructor (limits: Limits)
      ensures this.limits == limits && names == map[] && addresses == map[]
    {
      this.limits := limits;
      names := map[];
      addresses := map[];
    }

    method Sweep(counters: Counters, now: int) returns (left: Counters)
      ensures left == Swept(counters, now)
    {
      left := counters;
      var keys := counters.Keys;
      while keys != {}
        invariant keys <= counters.Keys
        invariant forall k :: k in left <==> k in counters && (k in keys || now < counters[k].expires)
        invariant forall k | k in left :: left[k] == counters[k]
        decreases |keys|
      {
        var key :| key in keys;
        keys := keys - {key};
        if !(now < left[key].expires) {
          left := left - {key};
        }
      }
    }

    method Expire(now: int)
      modifies this
      ensures names == Swept(old(names), now) && addresses == Swept(old(addresses), now)
    {
      names := Sweep(names, now);
      addresses := Sweep(addresses, now);
    }

    /** How long the caller has to wait, and whether it has to. */
    method BlockedFor(counters: Counters, key: string, limit: int, now: int) returns (retry: int, blocked: bool)
      ensures blocked == Blocked(counters, key, limit)
      ensures blocked ==> retry == counters[key].expires - now
    {
      if limit <= 0 || key == "" {
        return 0, false;
      }
      if key !in counters || counters[key].failures < limit {
        return 0, false;
      }
      return counters[key].expires - now, true;
    }

    method Allow(name: string, address: string, now: int) returns (ok: bool, retry: int)
      modifies this
      ensures names == Swept(old(names), now) && addresses == Swept(old(addresses), now)
      ensures var key := LoginKey(name, limits.lower);
              var nameFull := limits.perName > 0 && key != "" && key in names && names[key].failures >= limits.perName;
              var addressFull := limits.perAddress > 0 && address != "" && address in addresses
                                 && addresses[address].failures >= limits.perAddress;
        && ok == (!nameFull && !addressFull)
        && retry == (if nameFull then names[key].expires - now else if addressFull then addresses[address].expires - now else 0)
        && (!ok ==> retry > 0)
      ensures ok == Granted(limits, names, addresses, name, address)
    {
      Expire(now);
      var wait, blocked := BlockedFor(names, LoginKey(name, limits.lower), limits.perName, now);
      if blocked {
        return false, wait;
      }
      wait, blocked := BlockedFor(addresses, address, limits.perAddress, now);
      if blocked {
        return false, wait;
      }
      return true, 0;
    }

    method RecordFailure(name: string, address: string, now: int)
      modifies this
      ensures names == Bumped(Swept(old(names), now), LoginKey(name, limits.lower), now, limits.window)
      ensures addresses == Bumped(Swept(old(addresses), now), address, now, limits.window)
    {
      Expire(now);
      names := Bump(names, LoginKey(name, limits.lower), now);
      addresses := Bump(addresses, address, now);
    }

    method Bump(counters: Counters, key: string, now: int) returns (after: Counters)
      ensures after == Bumped(counters, key, now, limits.window)
    {
      if key == "" {
        return counters;
      }
      var c := if key in counters then counters[key] else Counter(0, now + limits.window);
      c := c.(failures := c.failures + 1);
      after := counters[key := c];
    }

    method RecordSuccess(name: string)
      modifies this`names
      ensures names == old(names) - {LoginKey(name, limits.lower)}
    {
      names := names - {LoginKey(name, limits.lower)};
    }
  }

  // ----- runs -----

  /** An attempt Allow has let through and that has not come out yet. */
  datatype Attempt = Attempt(name: string, address: string)

  /** What reaches the limiter: an attempt, or the outcome of the i-th one in flight; some have none. */
  datatype Event =
    | Begin(name: string, address: string, at: int)
    | Fail(i: nat, at: int)
    | Succeed(i: nat, at: int)
    | Vanish(i: nat, at: int)

  datatype World = World(names: Counters, addresses: Counters, flying: seq<Attempt>, now: int)

  function Start(now: int): World { World(map[], map[], [], now) }

  /** The clock never goes back, and every outcome is that of an attempt that was let through. */
  predicate Legal(w: World, e: Event) {
    e.at >= w.now && (!e.Begin? ==> e.i < |w.flying|)
  }

  function Landed(flying: seq<Attempt>, i: nat): seq<Attempt>
    requires i < |flying|
  {
    flying[..i] + flying[i + 1..]
  }

  function Next(limits: Limits, w: World, e: Event): World
    requires Legal(w, e)
  {
    match e
    case Begin(name, address, at) =>
      var names, addresses := Swept(w.names, at), Swept(w.addresses, at);
      World(names, addresses,
            if Granted(limits, names, addresses, name, address) then w.flying + [Attempt(name, address)] else w.flying,
            at)
    case Fail(i, at) =>
      World(Bumped(Swept(w.names, at), LoginKey(w.flying[i].name, limits.lower), at, limits.window),
            Bumped(Swept(w.addresses, at), w.flying[i].address, at, limits.window), Landed(w.flying, i), at)
    case Succeed(i, at) =>
      World(w.names - {LoginKey(w.flying[i].name, limits.lower)}, w.addresses, Landed(w.flying, i), at)
    case Vanish(i, at) =>
      w.(flying := Landed(w.flying, i), now := at)
  }

  // ----- one counter for every spelling -----

  /** Names are one to the limiter if and only if they are alike but for case and the space around them. */
  lemma SpellingsShareIff(a: string, b: string, lower: char -> char)
    ensures LoginKey(a, lower) == LoginKey(b, lower) <==> SameFolded(TrimSpace(a), TrimSpace(b), lower)
    ensures LoginKey(a, lower) == "" <==> TrimSpace(a) == ""
  {
    LoweredAlikeIff(TrimSpace(a), TrimSpace(b), lower);
  }

  /** A failure under one spelling counts once for every other, on top of what its window holds or in a new one. */
  lemma FailureCountsForAllSpellings(limits: Limits, w: World, i: nat, at: int, name: string)
    requires Legal(w, Fail(i, at)) && SameFolded(TrimSpace(w.flying[i].name), TrimSpace(name), limits.lower)
    requires TrimSpace(name) != ""
    ensures var before, after, key := w.names, Next(limits, w, Fail(i, at)).names, LoginKey(name, limits.lower);
      && key in after
      && (if key in before && at < before[key].expires
          then after[key] == Counter(before[key].failures + 1, before[key].expires)
          else after[key] == Counter(1, at + limits.window))
      && forall k | k != key :: (k in after <==> k in before && at < before[k].expires) && (k in after ==> after[k] == before[k])
  {
    SpellingsShareIff(w.flying[i].name, name, limits.lower);
    SpellingsShareIff(name, name, limits.lower);
    hide LoginKey, TrimSpace, SameFolded;
  }

  // ----- one counter -----

  /** One folded name or one address. */
  datatype Key = OfName(key: string) | OfAddress(key: string)

  function Table(w: World, k: Key): Counters {
    if k.OfName? then w.names else w.addresses
  }

  function Limit(limits: Limits, k: Key): int {
    if k.OfName? then limits.perName else limits.perAddress
  }

  predicate Concerns(limits: Limits, k: Key, a: Attempt) {
    k.key == if k.OfName? then LoginKey(a.name, limits.lower) else a.address
  }

  function Concerned(limits: Limits, k: Key): Attempt -> int {
    (a: Attempt) => if Concerns(limits, k, a) then 1 else 0
  }

  /** The attempts on k in flight. */
  function Flying(limits: Limits, w: World, k: Key): int {
    SumSeq(w.flying, Concerned(limits, k))
  }

  function Load(w: World, k: Key): nat {
    if k.key in Table(w, k) then Table(w, k)[k.key].failures else 0
  }

  /** Failures counted and failures still possible never exceed the limit by more than the attempts beside the first. */
  predicate Bounded(limits: Limits, w: World, k: Key, c: nat) {
    Load(w, k) + Flying(limits, w, k) <= Limit(limits, k) + c - 1
  }

  /** Every counter's window is running or was swept: it began within the last window. */
  predicate Fresh(limits: Limits, w: World) {
    && (forall key | key in w.names :: w.names[key].expires <= w.now + limits.window)
    && (forall key | key in w.addresses :: w.addresses[key].expires <= w.now + limits.window)
  }

  lemma LandingCounts(limits: Limits, flying: seq<Attempt>, i: nat, k: Key)
    requires i < |flying|
    ensures SumSeq(flying, Concerned(limits, k)) ==
      SumSeq(Landed(flying, i), Concerned(limits, k)) + Concerned(limits, k)(flying[i])
  {
    SumWithout(flying, i, Concerned(limits, k));
  }

  lemma SweepUnloads(counters: Counters, key: string, now: int)
    ensures key in Swept(counters, now) <==> key in counters && now < counters[key].expires
    ensures key in Swept(counters, now) ==> Swept(counters, now)[key] == counters[key]
  {}

  /** A grant means there was room; a failure adds one at most. */
  lemma LoadNext(limits: Limits, w: World, e: Event, k: Key)
    requires Legal(w, e) && Limit(limits, k) > 0 && k.key != ""
    ensures Load(Next(limits, w, e), k)
      <= Load(w, k) + if e.Fail? then Concerned(limits, k)(w.flying[e.i]) else 0
    ensures e.Begin? && Next(limits, w, e).flying != w.flying && Concerns(limits, k, Attempt(e.name, e.address)) ==>
      Load(Next(limits, w, e), k) < Limit(limits, k)
  {
    hide LoginKey, Swept;
    SweepUnloads(Table(w, k), k.key, e.at);
  }

  /** With at most c attempts on k in flight, no event takes the load past limit + c - 1. */
  lemma BoundIsKept(limits: Limits, w: World, e: Event, k: Key, c: nat)
    requires Legal(w, e) && Limit(limits, k) > 0 && k.key != ""
    requires Bounded(limits, w, k, c) && Flying(limits, Next(limits, w, e), k) <= c
    ensures Bounded(limits, Next(limits, w, e), k, c)
  {
    hide LoginKey, Load, Swept, Bumped, Granted, Concerns;
    LoadNext(limits, w, e, k);
    if e.Begin? {
      SumSnoc(w.flying, Attempt(e.name, e.address), Concerned(limits, k));
    } else {
      LandingCounts(limits, w.flying, e.i, k);
    }
  }

  /** Each call that sweeps leaves only counters created within the last window. */
  lemma SweptIsFresh(limits: Limits, w: World, e: Event)
    requires Legal(w, e) && Fresh(limits, w) && limits.window > 0
    ensures Fresh(limits, Next(limits, w, e))
    ensures e.Begin? || e.Fail? ==>
      && (forall key | key in Next(limits, w, e).names ::
            e.at - limits.window < Next(limits, w, e).names[key].expires - limits.window <= e.at)
      && (forall key | key in Next(limits, w, e).addresses ::
            e.at - limits.window < Next(limits, w, e).addresses[key].expires - limits.window <= e.at)
  {
    hide LoginKey, Granted, Landed;
  }

  // ----- what a run records -----

  ghost predicate LegalRun(limits: Limits, w: World, events: seq<Event>)
    decreases |events|
  {
    events != [] ==> Legal(w, events[0]) && LegalRun(limits, Next(limits, w, events[0]), events[1..])
  }

  function Run(limits: Limits, w: World, events: seq<Event>): World
    requires LegalRun(limits, w, events)
    decreases |events|
  {
    if events == [] then w else Run(limits, Next(limits, w, events[0]), events[1..])
  }

  /** Nowhere in the run are more than c attempts on k in flight. */
  ghost predicate AtMost(limits: Limits, w: World, events: seq<Event>, k: Key, c: nat)
    requires LegalRun(limits, w, events)
    decreases |events|
  {
    Flying(limits, w, k) <= c && (events != [] ==> AtMost(limits, Next(limits, w, events[0]), events[1..], k, c))
  }

  /** Every reachable state is within bounds. */
  lemma {:induction false} RunsStayBounded(limits: Limits, w: World, events: seq<Event>, k: Key, c: nat)
    requires LegalRun(limits, w, events) && AtMost(limits, w, events, k, c)
    requires Limit(limits, k) > 0 && k.key != "" && Bounded(limits, w, k, c)
    ensures Bounded(limits, Run(limits, w, events), k, c)
    decreases |events|
  {
    hide Bounded, Next, Legal, Flying;
    if events != [] {
      assert Flying(limits, Next(limits, w, events[0]), k) <= c;
      BoundIsKept(limits, w, events[0], k, c);
      RunsStayBounded(limits, Next(limits, w, events[0]), events[1..], k, c);
    }
  }

  lemma StartIsBounded(limits: Limits, now: int, k: Key, c: nat)
    requires Limit(limits, k) > 0
    ensures Bounded(limits, Start(now), k, c) && Fresh(limits, Start(now)) && Counting(Start(now), k)
  {}

  /** A recorded failure: when, and when the window it was counted in began. */
  datatype Entry = Entry(at: int, began: int)

  /** The entry of an event, if it is a failure on k. */
  function EntryOf(limits: Limits, w: World, e: Event, k: Key): (entry: seq<Entry>)
    requires Legal(w, e)
    ensures k.key != "" ==> (|entry| == 1 <==> e.Fail? && Concerns(limits, k, w.flying[e.i]))
  {
    var after := Table(Next(limits, w, e), k);
    if e.Fail? && Concerns(limits, k, w.flying[e.i]) && k.key in after then
      [Entry(e.at, after[k.key].expires - limits.window)]
    else []
  }

  function Log(limits: Limits, w: World, events: seq<Event>, k: Key): seq<Entry>
    requires LegalRun(limits, w, events)
    decreases |events|
  {
    if events == [] then [] else
    EntryOf(limits, w, events[0], k) + Log(limits, Next(limits, w, events[0]), events[1..], k)
  }

  /** No success clears k: always so for an address. */
  ghost predicate Unforgiven(limits: Limits, w: World, events: seq<Event>, k: Key)
    requires LegalRun(limits, w, events)
    decreases |events|
  {
    events != [] ==>
      && (events[0].Succeed? && k.OfName? ==> !Concerns(limits, k, w.flying[events[0].i]))
      && Unforgiven(limits, Next(limits, w, events[0]), events[1..], k)
  }

  function InWindow(began: int): Entry -> int { (e: Entry) => if e.began == began then 1 else 0 }

  /** Those of a window that did not begin it. */
  function LateIn(began: int): Entry -> int { (e: Entry) => if e.began == began && e.at > began then 1 else 0 }

  function Between(from: int, to: int): Entry -> int { (e: Entry) => if from <= e.at < to then 1 else 0 }

  // ----- one window, and any interval -----

  /** Where the window of a counter began. */
  function Began(limits: Limits, w: World, k: Key): Option<int> {
    if k.key in Table(w, k) then Some(Table(w, k)[k.key].expires - limits.window) else None
  }

  /** The windows still to come: the one that runs, or any that begins after it. */
  predicate Ahead(limits: Limits, w: World, k: Key, began: int) {
    var now := Began(limits, w, k);
    if now.None? then began >= w.now else began == now.value || began >= now.value + limits.window
  }

  /** One event's entry belongs to the window that runs then, and windows only move ahead. */
  lemma EntryIsInItsWindow(limits: Limits, w: World, e: Event, k: Key)
    requires Legal(w, e) && Fresh(limits, w) && limits.window > 0 && k.key != ""
    requires e.Succeed? && k.OfName? ==> !Concerns(limits, k, w.flying[e.i])
    ensures var after := Next(limits, w, e);
            && (forall x | x in EntryOf(limits, w, e, k) ::
                  Began(limits, after, k) == Some(x.began) && Ahead(limits, w, k, x.began) && x.began <= x.at < x.began + limits.window)
            && (forall b | Ahead(limits, after, k, b) :: Ahead(limits, w, k, b))
  {
    hide LoginKey, Swept;
    SweepUnloads(Table(w, k), k.key, e.at);
  }

  /** How the running window's count moves with one event. */
  lemma CountMoves(limits: Limits, w: World, e: Event, k: Key, b: int)
    requires Legal(w, e) && Fresh(limits, w) && limits.window > 0 && k.key != ""
    requires e.Succeed? && k.OfName? ==> !Concerns(limits, k, w.flying[e.i])
    ensures var after, entry := Next(limits, w, e), EntryOf(limits, w, e, k);
            && (entry == [] && Began(limits, after, k) == Some(b) ==> Began(limits, w, k) == Some(b) && Load(after, k) == Load(w, k))
            && (entry != [] ==>
                  && |entry| == 1
                  && Load(after, k) == 1 + if Began(limits, w, k) == Some(entry[0].began) then Load(w, k) else 0)
            && (Began(limits, w, k) == Some(b) && Began(limits, after, k) != Some(b) ==> !Ahead(limits, after, k, b))
  {
    hide LoginKey, Swept;
    SweepUnloads(Table(w, k), k.key, e.at);
  }

  lemma FlyingIsNatural(limits: Limits, flying: seq<Attempt>, k: Key)
    ensures SumSeq(flying, Concerned(limits, k)) >= 0
    decreases |flying|
  {
    if flying != [] { FlyingIsNatural(limits, flying[..|flying| - 1], k); }
  }

  /** One fixed window holds at most limit + c - 1 failures, those before this run included. */
  lemma {:induction false} OneWindowHolds(limits: Limits, w: World, events: seq<Event>, k: Key, c: nat, b: int)
    requires LegalRun(limits, w, events) && AtMost(limits, w, events, k, c) && Unforgiven(limits, w, events, k)
    requires Fresh(limits, w) && limits.window > 0 && Limit(limits, k) > 0 && k.key != "" && Bounded(limits, w, k, c)
    ensures var total := SumSeq(Log(limits, w, events, k), InWindow(b));
            && (!Ahead(limits, w, k, b) ==> total == 0)
            && total <= Limit(limits, k) + c - 1 - if Began(limits, w, k) == Some(b) then Load(w, k) else 0
    decreases |events|
  {
    hide Next, Legal, EntryOf, Load, Began, Ahead, Fresh, SumSeq;
    FlyingIsNatural(limits, w.flying, k);
    if events == [] {
      NothingLogged(b);
    } else {
      var e := events[0];
      var after := Next(limits, w, e);
      var entry, rest := EntryOf(limits, w, e, k), Log(limits, after, events[1..], k);
      BoundIsKept(limits, w, e, k, c);
      SweptIsFresh(limits, w, e);
      WindowStep(limits, w, e, k, b);
      OneWindowHolds(limits, after, events[1..], k, c, b);
      SumConcat(entry, rest, InWindow(b));
      hide Log, Bounded, Flying;
    }
  }

  lemma NothingLogged(b: int)
    ensures SumSeq([], InWindow(b)) == 0 && SumSeq([], LateIn(b)) == 0
  {}

  /** What is counted of window b if it is the one that runs. */
  function Counted(limits: Limits, w: World, k: Key, b: int): nat {
    if Began(limits, w, k) == Some(b) then Load(w, k) else 0
  }

  /** One event's entry is counted in the window that runs; a window that is left is over. */
  lemma WindowStep(limits: Limits, w: World, e: Event, k: Key, b: int)
    requires Legal(w, e) && Fresh(limits, w) && limits.window > 0 && k.key != ""
    requires e.Succeed? && k.OfName? ==> !Concerns(limits, k, w.flying[e.i])
    ensures var after := Next(limits, w, e);
            var one := SumSeq(EntryOf(limits, w, e, k), InWindow(b));
            && (Ahead(limits, after, k, b) ==> Ahead(limits, w, k, b))
            && (!Ahead(limits, w, k, b) ==> one == 0)
            && (Began(limits, after, k) == Some(b) ==> Load(after, k) == Counted(limits, w, k, b) + one)
            && (Began(limits, after, k) != Some(b) ==>
                  one == 0 && (Began(limits, w, k) == Some(b) ==> !Ahead(limits, after, k, b)))
  {
    hide Next, Legal, EntryOf, Load, Began, Ahead, Fresh;
    EntryIsInItsWindow(limits, w, e, k);
    CountMoves(limits, w, e, k, b);
    var entry := EntryOf(limits, w, e, k);
    if entry != [] {
      assert entry == [] + [entry[0]] && entry[0] in entry;
      SumSnoc([], entry[0], InWindow(b));
    }
  }

  /** The log's windows: each entry in its own, and no two windows overlap. */
  ghost predicate Apart(log: seq<Entry>, window: int) {
    && (forall x | x in log :: x.began <= x.at < x.began + window)
    && (forall x, y | x in log && y in log :: x.began == y.began || x.began >= y.began + window || y.began >= x.began + window)
  }

  lemma {:induction false} LogIsApart(limits: Limits, w: World, events: seq<Event>, k: Key)
    requires LegalRun(limits, w, events) && Unforgiven(limits, w, events, k)
    requires Fresh(limits, w) && limits.window > 0 && k.key != ""
    ensures Apart(Log(limits, w, events, k), limits.window)
    ensures forall x | x in Log(limits, w, events, k) :: Ahead(limits, w, k, x.began)
    decreases |events|
  {
    hide Next, Legal, EntryOf, Load, Fresh;
    if events != [] {
      var e := events[0];
      var after := Next(limits, w, e);
      var entry, rest := EntryOf(limits, w, e, k), Log(limits, after, events[1..], k);
      SweptIsFresh(limits, w, e);
      EntryIsInItsWindow(limits, w, e, k);
      CountMoves(limits, w, e, k, 0);
      LogIsApart(limits, after, events[1..], k);
    }
  }

  /** Every counter has counted something. */
  predicate Counting(w: World, k: Key) { k.key in Table(w, k) ==> Load(w, k) > 0 }

  lemma NewWindowBeginsNow(limits: Limits, w: World, e: Event, k: Key)
    requires Legal(w, e) && k.key != "" && Counting(w, k)
    requires e.Succeed? && k.OfName? ==> !Concerns(limits, k, w.flying[e.i])
    ensures Counting(Next(limits, w, e), k)
    ensures forall x | x in EntryOf(limits, w, e, k) :: x.began == x.at || Began(limits, w, k) == Some(x.began)
  {
    hide LoginKey, Swept;
    SweepUnloads(Table(w, k), k.key, e.at);
  }

  /** Its first failure begins a window, so one fewer than it holds come later. */
  lemma {:induction false} LateOnesAreFewer(limits: Limits, w: World, events: seq<Event>, k: Key, c: nat, b: int)
    requires LegalRun(limits, w, events) && AtMost(limits, w, events, k, c) && Unforgiven(limits, w, events, k)
    requires Fresh(limits, w) && limits.window > 0 && Limit(limits, k) > 0 && k.key != "" && Bounded(limits, w, k, c)
    requires Counting(w, k) && c > 0
    ensures SumSeq(Log(limits, w, events, k), LateIn(b)) <= Limit(limits, k) + c - 2
    decreases |events|
  {
    hide Next, Legal, EntryOf, Load, Began, Ahead, Fresh, SumSeq;
    if Began(limits, w, k) == Some(b) {
      OneWindowHolds(limits, w, events, k, c, b);
      LateAreInIt(Log(limits, w, events, k), b);
      BeganIsCounting(limits, w, k);
    } else if events == [] {
      NothingLogged(b);
    } else {
      var e := events[0];
      var after := Next(limits, w, e);
      BoundIsKept(limits, w, e, k, c);
      SweptIsFresh(limits, w, e);
      NewWindowBeginsNow(limits, w, e, k);
      LateOnesAreFewer(limits, after, events[1..], k, c, b);
      SumConcat(EntryOf(limits, w, e, k), Log(limits, after, events[1..], k), LateIn(b));
      NoneIsLate(EntryOf(limits, w, e, k), b);
      hide Log;
    }
  }

  lemma BeganIsCounting(limits: Limits, w: World, k: Key)
    requires Counting(w, k) && Began(limits, w, k).Some?
    ensures Load(w, k) > 0
  {}

  lemma {:induction false} LateAreInIt(log: seq<Entry>, b: int)
    ensures SumSeq(log, LateIn(b)) <= SumSeq(log, InWindow(b))
  {
    if log != [] { LateAreInIt(log[..|log| - 1], b); }
  }

  lemma {:induction false} NoneIsLate(log: seq<Entry>, b: int)
    requires forall x | x in log :: x.began == x.at || x.began != b
    ensures SumSeq(log, LateIn(b)) == 0
  {
    if log != [] { NoneIsLate(log[..|log| - 1], b); }
  }

  /**
   * Windows that do not overlap and hold so much each: an interval as long as one meets two at most,
   * and of the earlier one only what did not begin it.
   */
  lemma AnyIntervalMeetsTwo(log: seq<Entry>, window: int, bound: int, from: int)
    requires window > 0 && bound > 0 && Apart(log, window)
    requires forall b :: SumSeq(log, InWindow(b)) <= bound
    requires forall b :: SumSeq(log, LateIn(b)) <= bound - 1
    ensures SumSeq(log, Between(from, from + window)) <= 2 * bound - 1
  {
    hide SumSeq, Between, LateIn, InWindow, Apart;
    if x, y :| x in log && y in log && Within(x, from, window) && Within(y, from, window) && x.began < y.began {
      TwoWindowsCover(log, window, from, x, y);
      SumAtMost(log, Between(from, from + window), LateIn(x.began), InWindow(y.began));
    } else if x :| x in log && Within(x, from, window) {
      SumOneWindow(log, from, window, x.began);
    } else {
      SumNothing(log, from, window);
    }
  }

  predicate Within(x: Entry, from: int, window: int) { from <= x.at < from + window }

  lemma TwoWindowsCover(log: seq<Entry>, window: int, from: int, first: Entry, second: Entry)
    requires window > 0 && Apart(log, window) && first in log && second in log && first.began < second.began
    requires Within(first, from, window) && Within(second, from, window)
    ensures forall z | z in log ::
      Between(from, from + window)(z) <= LateIn(first.began)(z) + InWindow(second.began)(z)
  {
    forall z | z in log && from <= z.at < from + window
      ensures (z.began == first.began && z.at > z.began) || z.began == second.began
    {}
  }

  lemma {:induction false} SumOneWindow(log: seq<Entry>, from: int, window: int, b: int)
    requires forall x | x in log && Within(x, from, window) :: x.began == b
    ensures SumSeq(log, Between(from, from + window)) <= SumSeq(log, InWindow(b))
  {
    if log != [] { SumOneWindow(log[..|log| - 1], from, window, b); }
  }

  lemma {:induction false} SumNothing(log: seq<Entry>, from: int, window: int)
    requires forall x | x in log :: !Within(x, from, window)
    ensures SumSeq(log, Between(from, from + window)) == 0
  {
    if log != [] {
      assert log[|log| - 1] in log;
      SumNothing(log[..|log| - 1], from, window);
    }
  }

  /**
   * Whatever happens in between, any interval of the window's length records less than twice
   * limit + c - 1 failures on one key with c attempts in flight at most: less than twice the limit
   * when they come one after another.
   */
  lemma AnyIntervalHolds(limits: Limits, w: World, events: seq<Event>, k: Key, c: nat, from: int)
    requires LegalRun(limits, w, events) && AtMost(limits, w, events, k, c) && Unforgiven(limits, w, events, k)
    requires Fresh(limits, w) && limits.window > 0 && Limit(limits, k) > 0 && k.key != "" && Bounded(limits, w, k, c)
    requires Counting(w, k) && c > 0
    ensures SumSeq(Log(limits, w, events, k), Between(from, from + limits.window)) < 2 * (Limit(limits, k) + c - 1)
  {
    hide Log, LegalRun, AtMost, Unforgiven, Fresh, Bounded, Counting;
    LogIsApart(limits, w, events, k);
    forall b
      ensures SumSeq(Log(limits, w, events, k), InWindow(b)) <= Limit(limits, k) + c - 1
      ensures SumSeq(Log(limits, w, events, k), LateIn(b)) <= Limit(limits, k) + c - 2
    {
      OneWindowHolds(limits, w, events, k, c, b);
      LateOnesAreFewer(limits, w, events, k, c, b);
    }
    AnyIntervalMeetsTwo(Log(limits, w, events, k), limits.window, Limit(limits, k) + c - 1, from);
  }

  /** An address is never forgiven. */
  lemma {:induction false} AddressesAreUnforgiven(limits: Limits, w: World, events: seq<Event>, address: string)
    requires LegalRun(limits, w, events)
    ensures Unforgiven(limits, w, events, OfAddress(address))
    decreases |events|
  {
    hide Next, Legal;
    if events != [] { AddressesAreUnforgiven(limits, Next(limits, w, events[0]), events[1..], address); }
  }

  // ----- as many there can be -----

  const HOST := OfAddress("host")

  /** The limiter knows of one address alone, with nothing in flight. */
  function Known(addresses: Counters, now: int): World { World(map[], addresses, [], now) }

  /** n attempts of that address at one instant, each let through and failed before the next; then the rest. */
  function FailuresThen(n: nat, at: int, rest: seq<Event>): seq<Event> {
    if n == 0 then rest else [Begin("", "host", at), Fail(0, at)] + FailuresThen(n - 1, at, rest)
  }

  lemma NoName(lower: char -> char)
    ensures LoginKey("", lower) == ""
  {
    assert Lowered("", lower) == "";
  }

  lemma Admitted(limits: Limits, addresses: Counters, now: int, at: int)
    requires now <= at && "host" in Swept(addresses, at) ==> Swept(addresses, at)["host"].failures < limits.perAddress
    requires now <= at
    ensures Legal(Known(addresses, now), Begin("", "host", at))
    ensures Next(limits, Known(addresses, now), Begin("", "host", at))
            == World(map[], Swept(addresses, at), [Attempt("", "host")], at)
  {
    NoName(limits.lower);
    assert Swept(map[], at) == map[];
    hide Swept, LoginKey;
    assert [] + [Attempt("", "host")] == [Attempt("", "host")];
  }

  lemma Failed(limits: Limits, addresses: Counters, at: int)
    ensures var w := World(map[], addresses, [Attempt("", "host")], at);
      && Legal(w, Fail(0, at))
      && Next(limits, w, Fail(0, at)) == Known(Bumped(Swept(addresses, at), "host", at, limits.window), at)
  {
    NoName(limits.lower);
    assert Swept(map[], at) == map[];
    assert Landed([Attempt("", "host")], 0) == [];
    hide Swept, LoginKey, Landed;
  }

  /** One failure of the run above, from whatever is known of the address. */
  lemma OneFailure(limits: Limits, addresses: Counters, now: int, at: int, rest: seq<Event>, from: int)
    requires now <= at && limits.perAddress > 0
    requires "host" in Swept(addresses, at) ==> Swept(addresses, at)["host"].failures < limits.perAddress
    requires var after := Known(Bumped(Swept(addresses, at), "host", at, limits.window), at);
             LegalRun(limits, after, rest) && AtMost(limits, after, rest, HOST, 1)
    ensures var events := [Begin("", "host", at), Fail(0, at)] + rest;
            var after := Known(Bumped(Swept(addresses, at), "host", at, limits.window), at);
      && LegalRun(limits, Known(addresses, now), events) && AtMost(limits, Known(addresses, now), events, HOST, 1)
      && SumSeq(Log(limits, Known(addresses, now), events, HOST), Between(from, from + limits.window))
         == (if from <= at < from + limits.window then 1 else 0)
            + SumSeq(Log(limits, after, rest, HOST), Between(from, from + limits.window))
  {
    var w, begin, fail := Known(addresses, now), Begin("", "host", at), Fail(0, at);
    var mid := World(map[], Swept(addresses, at), [Attempt("", "host")], at);
    var after := Known(Bumped(Swept(addresses, at), "host", at, limits.window), at);
    Admitted(limits, addresses, now, at);
    Failed(limits, Swept(addresses, at), at);
    SweptTwice(addresses, at);
    FailureEntry(limits, addresses, now, at);
    OneFlies(limits, addresses, now, at);
    Unrolled(limits, w, begin, [fail] + rest, HOST);
    Unrolled(limits, mid, fail, rest, HOST);
    assert [begin, fail] + rest == [begin] + ([fail] + rest);
    var entry := EntryOf(limits, mid, fail, HOST);
    hide Swept, Bumped, Next, Legal, LegalRun, AtMost, Log, EntryOf, SumSeq;
    assert entry == [] + [entry[0]] && [] + Log(limits, mid, [fail] + rest, HOST) == Log(limits, mid, [fail] + rest, HOST);
    SumConcat(entry, Log(limits, after, rest, HOST), Between(from, from + limits.window));
    SumSnoc([], entry[0], Between(from, from + limits.window));
    SumOfNone(from, from + limits.window);
  }

  lemma SumOfNone(from: int, to: int)
    ensures SumSeq([], Between(from, to)) == 0
  {}

  lemma Unrolled(limits: Limits, w: World, e: Event, rest: seq<Event>, k: Key)
    requires Legal(w, e) && LegalRun(limits, Next(limits, w, e), rest)
    ensures LegalRun(limits, w, [e] + rest)
    ensures Log(limits, w, [e] + rest, k) == EntryOf(limits, w, e, k) + Log(limits, Next(limits, w, e), rest, k)
    ensures forall c | Flying(limits, w, k) <= c && AtMost(limits, Next(limits, w, e), rest, k, c) ::
      AtMost(limits, w, [e] + rest, k, c)
  {
    assert ([e] + rest)[0] == e && ([e] + rest)[1..] == rest;
    hide Next, Legal, EntryOf;
  }

  lemma FailureEntry(limits: Limits, addresses: Counters, now: int, at: int)
    requires now <= at
    ensures EntryOf(limits, Known(addresses, now), Begin("", "host", at), HOST) == []
    ensures var entry := EntryOf(limits, World(map[], Swept(addresses, at), [Attempt("", "host")], at), Fail(0, at), HOST);
            |entry| == 1 && entry[0].at == at
  {
    hide Swept, Bumped, LoginKey;
  }

  lemma OneFlies(limits: Limits, addresses: Counters, now: int, at: int)
    ensures Flying(limits, Known(addresses, now), HOST) == 0
    ensures Flying(limits, World(map[], addresses, [Attempt("", "host")], at), HOST) == 1
    ensures Flying(limits, World(map[], Swept(addresses, at), [Attempt("", "host")], at), HOST) == 1
  {
    var one := Attempt("", "host");
    assert [one][..0] == [];
  }

  lemma SweptTwice(counters: Counters, at: int)
    ensures Swept(Swept(counters, at), at) == Swept(counters, at)
  {}

  function Host(failures: nat, expires: int): Counters { map["host" := Counter(failures, expires)] }

  lemma HostMoves(failures: nat, expires: int, at: int, window: int)
    ensures at < expires ==> Swept(Host(failures, expires), at) == Host(failures, expires)
    ensures at >= expires ==> Swept(Host(failures, expires), at) == map[]
    ensures Bumped(Host(failures, expires), "host", at, window) == Host(failures + 1, expires)
    ensures Swept(map[], at) == map[] && Bumped(map[], "host", at, window) == Host(1, at + window)
  {}

  /** Up to the limit all of them are let through, into the window that runs. */
  lemma {:induction false} FailuresHold(limits: Limits, failures: nat, expires: int, now: int, n: nat, at: int,
                                        rest: seq<Event>, from: int)
    requires now <= at < expires && 0 < limits.perAddress && failures + n <= limits.perAddress
    requires var after := Known(Host(failures + n, expires), if n > 0 then at else now);
             LegalRun(limits, after, rest) && AtMost(limits, after, rest, HOST, 1)
    ensures var w, events := Known(Host(failures, expires), now), FailuresThen(n, at, rest);
            var after := Known(Host(failures + n, expires), if n > 0 then at else now);
      && LegalRun(limits, w, events) && AtMost(limits, w, events, HOST, 1)
      && SumSeq(Log(limits, w, events, HOST), Between(from, from + limits.window))
         == (if from <= at < from + limits.window then n else 0)
            + SumSeq(Log(limits, after, rest, HOST), Between(from, from + limits.window))
    decreases n
  {
    hide LegalRun, AtMost, Log, SumSeq, Swept, Bumped, Host;
    if n > 0 {
      HostMoves(failures, expires, at, limits.window);
      FailuresHold(limits, failures + 1, expires, at, n - 1, at, rest, from);
      HostCounts(failures, expires);
      OneFailure(limits, Host(failures, expires), now, at, FailuresThen(n - 1, at, rest), from);
    }
  }

  lemma HostCounts(failures: nat, expires: int)
    ensures "host" in Host(failures, expires) && Host(failures, expires)["host"].failures == failures
  {}

  /** One failure at the start, all but one more at the end of its window, and a full window right after. */
  function TightRun(limits: Limits): seq<Event>
    requires limits.perAddress > 0
  {
    FailuresThen(1, 0, FailuresThen(limits.perAddress - 1, limits.window - 1,
      FailuresThen(1, limits.window, FailuresThen(limits.perAddress - 1, limits.window, []))))
  }

  lemma OneThen(at: int, rest: seq<Event>)
    ensures FailuresThen(1, at, rest) == [Begin("", "host", at), Fail(0, at)] + rest
  {
    assert FailuresThen(0, at, rest) == rest;
  }

  /** And one short of twice the limit there can be, with attempts one after another: the bound is exact. */
  lemma AnIntervalMayHoldThatMany(limits: Limits)
    requires limits.perAddress > 0 && limits.window > 1
    ensures LegalRun(limits, Start(0), TightRun(limits)) && AtMost(limits, Start(0), TightRun(limits), HOST, 1)
    ensures SumSeq(Log(limits, Start(0), TightRun(limits), HOST), Between(1, 1 + limits.window)) == 2 * limits.perAddress - 1
  {
    hide FailuresThen, LegalRun, AtMost, Log, SumSeq, Swept, Bumped, Host;
    var most: nat, window := limits.perAddress, limits.window;
    var second := FailuresThen(1, window, FailuresThen(most - 1, window, []));
    var first := FailuresThen(most - 1, window - 1, second);
    OneThen(0, first);
    HostMoves(0, window, 0, window);
    FullWindow(limits, if most > 1 then window - 1 else 0);
    FailuresHold(limits, 1, window, 0, most - 1, window - 1, second, 1);
    OneFailure(limits, map[], 0, 0, first, 1);
  }

  /** When the first window is over the address has its whole limit again. */
  lemma FullWindow(limits: Limits, now: int)
    requires limits.perAddress > 0 && limits.window > 1 && now <= limits.window
    ensures var most: nat, window := limits.perAddress, limits.window;
            var w, events := Known(Host(most, window), now), FailuresThen(1, window, FailuresThen(most - 1, window, []));
      && LegalRun(limits, w, events) && AtMost(limits, w, events, HOST, 1)
      && SumSeq(Log(limits, w, events, HOST), Between(1, 1 + window)) == most
  {
    hide FailuresThen, LegalRun, AtMost, Log, SumSeq, Swept, Bumped, Host;
    var most: nat, window := limits.perAddress, limits.window;
    var last := FailuresThen(most - 1, window, []);
    OneThen(window, last);
    HostMoves(most, window, window, window);
    Ended(limits, Known(Host(most, 2 * window), window));
    FailuresHold(limits, 1, 2 * window, window, most - 1, window, [], 1);
    OneFailure(limits, Host(most, window), now, window, last, 1);
  }

  lemma Ended(limits: Limits, w: World)
    requires w.flying == []
    ensures LegalRun(limits, w, []) && AtMost(limits, w, [], HOST, 1) && AtMost(limits, w, [], HOST, 2)
    ensures forall from, to :: SumSeq(Log(limits, w, [], HOST), Between(from, to)) == 0
  {}

  lemma BeginsMore(limits: Limits, flying: seq<Attempt>)
    ensures Next(limits, World(map[], map[], flying, 0), Begin("", "host", 0))
            == World(map[], map[], flying + [Attempt("", "host")], 0)
  {
    NoName(limits.lower);
    assert Swept(map[], 0) == map[];
    hide Swept, LoginKey;
  }

  lemma FailsFirst(limits: Limits, addresses: Counters, rest: seq<Attempt>)
    ensures var w := World(map[], addresses, [Attempt("", "host")] + rest, 0);
      && Next(limits, w, Fail(0, 0)) == World(map[], Bumped(Swept(addresses, 0), "host", 0, limits.window), rest, 0)
      && "host" in Bumped(Swept(addresses, 0), "host", 0, limits.window)
      && EntryOf(limits, w, Fail(0, 0), HOST)
         == [Entry(0, Bumped(Swept(addresses, 0), "host", 0, limits.window)["host"].expires - limits.window)]
  {
    NoName(limits.lower);
    assert Swept(map[], 0) == map[];
    assert Landed([Attempt("", "host")] + rest, 0) == rest;
    hide Swept, LoginKey, Landed;
  }

  /** Two attempts in flight at once: a limit of one lets two failures into one window. */
  lemma AWindowMayHoldThatMany(limits: Limits)
    requires limits.perAddress == 1 && limits.window > 0
    ensures var w, events := Start(0), [Begin("", "host", 0), Begin("", "host", 0), Fail(0, 0), Fail(0, 0)];
      && LegalRun(limits, w, events) && AtMost(limits, w, events, HOST, 2)
      && SumSeq(Log(limits, w, events, HOST), InWindow(0)) == limits.perAddress + 2 - 1
  {
    hide Next, Swept, Bumped, Flying, SumSeq, LegalRun, AtMost, Log, EntryOf;
    var a, begin, fail := Attempt("", "host"), Begin("", "host", 0), Fail(0, 0);
    var w1, w2 := World(map[], map[], [a], 0), World(map[], map[], [a, a], 0);
    var w3, w4 := World(map[], Host(1, limits.window), [a], 0), Known(Host(2, limits.window), 0);
    assert [] + [a] == [a] && [a] + [a] == [a, a] && [a] + [] == [a];
    BeginsMore(limits, []);
    BeginsMore(limits, [a]);
    FailsFirst(limits, map[], [a]);
    FailsFirst(limits, Host(1, limits.window), []);
    HostMoves(1, limits.window, 0, limits.window);
    NoEntries(limits, Start(0));
    NoEntries(limits, w1);
    NoEntries(limits, w4);
    Flights(limits, w1);
    Flights(limits, w2);
    Flights(limits, w3);
    Flights(limits, w4);
    Flights(limits, Start(0));
    Ended(limits, w4);
    assert [fail] + [] == [fail] && [fail] + [fail] == [fail, fail] && [begin] + [fail, fail] == [begin, fail, fail];
    assert [begin] + [begin, fail, fail] == [begin, begin, fail, fail];
    Unrolled(limits, w3, fail, [], HOST);
    Unrolled(limits, w2, fail, [fail], HOST);
    Unrolled(limits, w1, begin, [fail, fail], HOST);
    Unrolled(limits, Start(0), begin, [begin, fail, fail], HOST);
    TwoEntries(Entry(0, 0));
    var x := Entry(0, 0);
    assert [] + ([] + ([x] + ([x] + []))) == [x, x];
  }

  lemma NoEntries(limits: Limits, w: World)
    requires w.now == 0
    ensures EntryOf(limits, w, Begin("", "host", 0), HOST) == [] && Log(limits, w, [], HOST) == []
  {}

  lemma TwoEntries(x: Entry)
    ensures SumSeq([x, x], InWindow(x.began)) == 2
  {
    assert [] + [x] == [x] && [x] + [x] == [x, x];
    SumSnoc([], x, InWindow(x.began));
    SumSnoc([x], x, InWindow(x.began));
  }

  lemma Flights(limits: Limits, w: World)
    requires forall a | a in w.flying :: a == Attempt("", "host")
    ensures Flying(limits, w, HOST) == |w.flying|
  {
    AllCount(w.flying, Concerned(limits, HOST));
  }

  lemma {:induction false} AllCount<T>(s: seq<T>, f: T -> int)
    requires forall x | x in s :: f(x) == 1
    ensures SumSeq(s, f) == |s|
  {
    if s != [] {
      assert s[|s| - 1] in s;
      AllCount(s[..|s| - 1], f);
    }
  }
}
