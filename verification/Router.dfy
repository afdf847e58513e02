/**
 * The router's renders (frontend/src/router.ts). A render takes a ticket, builds its page and only then
 * learns whether it is still the newest. Its cleanups collect in a list of its own, which becomes the
 * router's when the page is shown, so lists are named by the render that made them; 0 is the first.
 */
module Router {
  import opened Prelude

  type Ticket = nat
  type Cleanup = nat

  datatype State = State(
    mounted: bool,
    ticket: Ticket,
    owner: Ticket,                       // whose list this.cleanups is
    lists: map<Ticket, seq<Cleanup>>,
    building: set<Ticket>,               // renders that await their page
    failed: set<Ticket>,                 // renders whose page was rejected
    shown: seq<Ticket>,                  // the pages shown, in order
    ran: seq<Cleanup>,                   // the cleanups run, in order
    registered: map<Cleanup, Ticket>)    // who registered, while the render was building or on screen

  const START := State(false, 0, 0, map[0 := []], {}, {}, [], [], map[])

  datatype Event =
    | Mount
    | Render
    | Register(from: Ticket, cleanup: Cleanup)
    | Resolve(built: Ticket)
    | Reject(broken: Ticket)
    | Stop

  /** A page registers only with a render there was, each time a new function; a build ends once. */
  predicate Legal(s: State, e: Event) {
    match e
    case Register(from, cleanup) =>
      from in s.lists && from > 0 && cleanup !in s.registered && (forall r | r in s.lists :: cleanup !in s.lists[r])
    case Resolve(built) => built in s.building
    case Reject(broken) => broken in s.building
    case _ => true
  }

  /** Router.run on one list: spliced empty, and everything in it called. */
  function Emptied(s: State, list: Ticket): State
    requires list in s.lists
  {
    s.(lists := s.lists[list := []], ran := s.ran + s.lists[list])
  }

  /** Building, or on screen: what it registers now will be undone. */
  predicate Live(s: State, r: Ticket) {
    r in s.building || (r == s.owner && r > 0)
  }

  predicate Sound(s: State) {
    && 0 in s.lists && s.owner in s.lists && s.building <= s.lists.Keys && s.failed <= s.lists.Keys
    && (forall r | r in s.lists :: r <= s.ticket)
    && 0 !in s.building && 0 !in s.failed && s.building !! s.failed
    && s.owner !in s.building && s.owner !in s.failed
  }

  function Next(s: State, e: Event): State
    requires Sound(s) && Legal(s, e)
  {
    match e
    case Mount => s.(mounted := true)
    case Render =>
      if !s.mounted then s
      else
        var mine := s.ticket + 1;
        s.(ticket := mine, lists := s.lists[mine := []], building := s.building + {mine})
    case Register(from, cleanup) =>
      s.(lists := s.lists[from := s.lists[from] + [cleanup]],
         registered := if Live(s, from) then s.registered[cleanup := from] else s.registered)
    case Resolve(built) =>
      var t := s.(building := s.building - {built});
      if built != s.ticket then Emptied(t, built)
      else Emptied(t, s.owner).(owner := built, shown := s.shown + [built])
    case Reject(broken) =>
      s.(building := s.building - {broken}, failed := s.failed + {broken})
    case Stop => Emptied(s, s.owner)
  }

  /** The router with its fields; every method is one event. */
  class Router {
    var mounted: bool
    var ticket: Ticket
    var owner: Ticket
    var lists: map<Ticket, seq<Cleanup>>
    ghost var building: set<Ticket>
    ghost var failed: set<Ticket>
    ghost var shown: seq<Ticket>
    ghost var ran: seq<Cleanup>
    ghost var registered: map<Cleanup, Ticket>

    ghost function Now(): State
      reads this
    {
      State(mounted, ticket, owner, lists, building, failed, shown, ran, registered)
    }

    constructor ()
      ensures Now() == START && Sound(Now())
    {
      mounted, ticket, owner, lists := false, 0, 0, map[0 := []];
      building, failed, shown, ran, registered := {}, {}, [], [], map[];
    }

    method MountOutlet()
      requires Sound(Now())
      modifies this
      ensures Now() == Next(old(Now()), Mount)
    {
      mounted := true;
    }

    /** Router.run: the list is emptied before the first of it is called. */
    method RunList(list: Ticket)
      requires list in lists
      modifies this
      ensures Now() == Emptied(old(Now()), list)
    {
      var taken := lists[list];
      lists := lists[list := []];
      for i := 0 to |taken|
        invariant Now() == old(Now()).(lists := old(lists)[list := []], ran := old(ran) + taken[..i])
      {
        ran := ran + [taken[i]];
      }
    }

    /** render, up to its await. */
    method BeginRender() returns (mine: Ticket)
      requires Sound(Now())
      modifies this
      ensures Now() == Next(old(Now()), Render)
      ensures mine == if old(mounted) then ticket else 0
    {
      if !mounted {
        return 0;
      }
      ticket := ticket + 1;
      mine := ticket;
      lists := lists[mine := []];
      building := building + {mine};
    }

    /** context.onCleanup. */
    method OnCleanup(from: Ticket, cleanup: Cleanup)
      requires Sound(Now()) && Legal(Now(), Register(from, cleanup))
      modifies this
      ensures Now() == Next(old(Now()), Register(from, cleanup))
    {
      if Live(Now(), from) { registered := registered[cleanup := from]; }
      lists := lists[from := lists[from] + [cleanup]];
    }

    /** render, after its await. */
    method FinishRender(mine: Ticket)
      requires Sound(Now()) && Legal(Now(), Resolve(mine))
      modifies this
      ensures Now() == Next(old(Now()), Resolve(mine))
    {
      building := building - {mine};
      if mine != ticket {
        RunList(mine);
        return;
      }
      RunList(owner);
      owner := mine;
      shown := shown + [mine];
    }

    method StopRouting()
      requires Sound(Now())
      modifies this
      ensures Now() == Next(old(Now()), Stop)
    {
      RunList(owner);
    }
  }

  // ----- what every run keeps -----

  /** Shown pages are ever newer renders, and the newest one is building or on screen unless it failed. */
  predicate Orderly(s: State) {
    && Sound(s)
    && (forall i, j | 0 <= i < j < |s.shown| :: s.shown[i] < s.shown[j])
    && s.owner == (if s.shown == [] then 0 else s.shown[|s.shown| - 1])
    && (s.ticket > 0 ==> s.ticket in s.building || s.ticket in s.failed || s.owner == s.ticket)
  }

  /** Registered in time: it has run once and waits nowhere, or waits once in a list that will be run. */
  predicate AccountedFor(s: State, x: Cleanup)
    requires Sound(s) && x in s.registered
  {
    var r := s.registered[x];
    && r in s.lists
    && (r !in s.failed ==>
          || (multiset(s.ran)[x] == 1 && x !in s.lists[r])
          || (multiset(s.ran)[x] == 0 && Live(s, r) && multiset(s.lists[r])[x] == 1))
  }

  ghost predicate Accounted(s: State) {
    && Sound(s) && s.lists[0] == []
    && (forall x | x in s.registered :: AccountedFor(s, x))
    && (forall r, x | r in s.lists && x in s.lists[r] && x in s.registered :: s.registered[x] == r)
    && (forall r, x | r in s.lists && x in s.lists[r] && Live(s, r) :: x in s.registered)
    && (forall x | x in s.ran :: x in s.registered && s.registered[x] !in s.failed)
  }

  /** Nothing of a page that is still being built has been undone. */
  predicate Untouched(s: State) {
    forall x | x in s.ran && x in s.registered :: s.registered[x] !in s.building
  }

  lemma OrderIsKept(s: State, e: Event)
    requires Orderly(s) && Legal(s, e)
    ensures Orderly(Next(s, e))
  {}

  /** Running a list that is live runs what it holds, once, and nothing else. */
  lemma RunningAccounts(s: State, list: Ticket)
    requires Accounted(s) && list in s.lists && (list == 0 || Live(s, list))
    ensures Accounted(Emptied(s, list))
    ensures forall x | x in s.registered && s.registered[x] == list && list !in s.failed ::
      multiset(Emptied(s, list).ran)[x] == 1
    ensures forall x | x in s.lists[list] :: x in s.registered && s.registered[x] == list
  {
    var t := Emptied(s, list);
    forall x | x in t.registered
      ensures AccountedFor(t, x)
      ensures s.registered[x] == list && list !in s.failed ==> multiset(t.ran)[x] == 1
    {
      assert AccountedFor(s, x);
      assert multiset(t.ran)[x] == multiset(s.ran)[x] + multiset(s.lists[list])[x];
      if s.registered[x] != list {
        assert x !in s.lists[list];
      }
    }
    forall x | x in t.ran
      ensures x in t.registered && t.registered[x] !in t.failed
    {
      assert x in s.ran || x in s.lists[list];
    }
  }

  /** A list nothing waits in may stop being live. */
  lemma LeavingAccounts(s: State, t: State, r: Ticket)
    requires Accounted(s) && r in s.lists && s.lists[r] == [] && Sound(t)
    requires t.lists == s.lists && t.ran == s.ran && t.registered == s.registered && t.failed == s.failed
    requires forall q | Live(t, q) :: Live(s, q)
    requires forall q | Live(s, q) && q != r :: Live(t, q)
    ensures Accounted(t)
  {
    forall x | x in t.registered
      ensures AccountedFor(t, x)
    {
      assert AccountedFor(s, x);
    }
  }

  lemma BeginningKeeps(s: State, x: Cleanup)
    requires Sound(s) && s.mounted && x in s.registered && AccountedFor(s, x)
    ensures Sound(Next(s, Render)) && AccountedFor(Next(s, Render), x)
  {}

  lemma BeginningAccounts(s: State)
    requires Accounted(s) && Orderly(s) && s.mounted
    ensures Accounted(Next(s, Render))
  {
    hide AccountedFor;
    var t := Next(s, Render);
    OrderIsKept(s, Render);
    assert t.ticket !in s.lists;
    forall x | x in t.registered
      ensures AccountedFor(t, x)
    {
      BeginningKeeps(s, x);
    }
  }

  lemma RegisteringKeeps(s: State, from: Ticket, cleanup: Cleanup, x: Cleanup)
    requires Sound(s) && Legal(s, Register(from, cleanup)) && x in s.registered && AccountedFor(s, x)
    ensures Sound(Next(s, Register(from, cleanup))) && AccountedFor(Next(s, Register(from, cleanup)), x)
  {
    var t := Next(s, Register(from, cleanup));
    assert multiset(t.lists[from]) == multiset(s.lists[from]) + multiset{cleanup};
  }

  /** What is registered now waits once, where it was put. */
  lemma NewcomerWaits(s: State, from: Ticket, cleanup: Cleanup)
    requires Sound(s) && Legal(s, Register(from, cleanup)) && Live(s, from) && cleanup !in s.ran
    ensures var t := Next(s, Register(from, cleanup));
            Sound(t) && cleanup in t.registered && AccountedFor(t, cleanup)
  {
    var t := Next(s, Register(from, cleanup));
    assert multiset(t.lists[from]) == multiset(s.lists[from]) + multiset{cleanup};
  }

  lemma RegisteringAccounts(s: State, from: Ticket, cleanup: Cleanup)
    requires Accounted(s) && Legal(s, Register(from, cleanup))
    ensures Accounted(Next(s, Register(from, cleanup)))
  {
    hide AccountedFor;
    var t := Next(s, Register(from, cleanup));
    forall x | x in t.registered
      ensures AccountedFor(t, x)
    {
      if x != cleanup { RegisteringKeeps(s, from, cleanup, x); } else { NewcomerWaits(s, from, cleanup); }
    }
  }

  lemma FailingAccounts(s: State, broken: Ticket)
    requires Accounted(s) && Untouched(s) && Legal(s, Reject(broken))
    ensures Accounted(Next(s, Reject(broken)))
  {
    var t := Next(s, Reject(broken));
    forall x | x in t.registered
      ensures AccountedFor(t, x)
    {
      assert AccountedFor(s, x);
    }
  }

  lemma ResolvingAccounts(s: State, built: Ticket)
    requires Accounted(s) && Orderly(s) && Legal(s, Resolve(built))
    ensures Accounted(Next(s, Resolve(built)))
  {
    hide Accounted, AccountedFor;
    var t := Next(s, Resolve(built));
    assert s.owner == 0 || Live(s, s.owner);
    assert Sound(t) by { OrderIsKept(s, Resolve(built)); }
    if built != s.ticket {
      RunningAccounts(s, built);
      LeavingAccounts(Emptied(s, built), t, built);
    } else {
      RunningAccounts(s, s.owner);
      LeavingAccounts(Emptied(s, s.owner), t, s.owner);
    }
  }

  /** Every event keeps the account. */
  lemma AccountIsKept(s: State, e: Event)
    requires Accounted(s) && Orderly(s) && Untouched(s) && Legal(s, e)
    ensures Accounted(Next(s, e)) && Orderly(Next(s, e)) && Untouched(Next(s, e))
  {
    assert Sound(s);
    hide Accounted, AccountedFor, Orderly, Untouched;
    OrderIsKept(s, e);
    UntouchedIsKept(s, e);
    match e {
      case Mount => MountingAccounts(s);
      case Render => if s.mounted { BeginningAccounts(s); }
      case Register(from, cleanup) => RegisteringAccounts(s, from, cleanup);
      case Resolve(built) => ResolvingAccounts(s, built);
      case Reject(broken) => FailingAccounts(s, broken);
      case Stop =>
        assert s.owner == 0 || Live(s, s.owner);
        RunningAccounts(s, s.owner);
    }
  }

  lemma MountingAccounts(s: State)
    requires Accounted(s)
    ensures Accounted(Next(s, Mount))
  {
    forall x | x in s.registered
      ensures AccountedFor(Next(s, Mount), x)
    {
      assert AccountedFor(s, x);
    }
  }

  lemma UntouchedIsKept(s: State, e: Event)
    requires Accounted(s) && Untouched(s) && Legal(s, e)
    ensures Untouched(Next(s, e))
  {
    var t := Next(s, e);
    forall x | x in t.ran && x in t.registered
      ensures t.registered[x] !in t.building
    {
      if e.Resolve? && x !in s.ran {
        var list := if e.built != s.ticket then e.built else s.owner;
        assert x in s.lists[list];
      }
      if e.Stop? && x !in s.ran { assert x in s.lists[s.owner]; }
    }
  }

  // ----- runs -----

  ghost predicate LegalRun(s: State, events: seq<Event>)
    decreases |events|
  {
    Sound(s) && (events != [] ==> Legal(s, events[0]) && LegalRun(Next(s, events[0]), events[1..]))
  }

  function After(s: State, events: seq<Event>): State
    requires LegalRun(s, events)
    decreases |events|
  {
    if events == [] then s else After(Next(s, events[0]), events[1..])
  }

  ghost predicate Reachable(s: State) {
    exists events :: LegalRun(START, events) && s == After(START, events)
  }

  lemma {:induction false} RunsKeepTheAccount(s: State, events: seq<Event>)
    requires LegalRun(s, events) && Accounted(s) && Orderly(s) && Untouched(s)
    ensures var t := After(s, events); Accounted(t) && Orderly(t) && Untouched(t)
    decreases |events|
  {
    hide Accounted, Orderly, Untouched, Next, Legal;
    if events != [] {
      AccountIsKept(s, events[0]);
      RunsKeepTheAccount(Next(s, events[0]), events[1..]);
    }
  }

  lemma ReachableStatesAreAccounted(s: State)
    requires Reachable(s)
    ensures Accounted(s) && Orderly(s) && Untouched(s)
  {
    var events :| LegalRun(START, events) && s == After(START, events);
    RunsKeepTheAccount(START, events);
  }

  /** In every run the pages shown come from ever newer renders. */
  lemma ShownTicketsIncrease(s: State, i: nat, j: nat)
    requires Reachable(s) && i < j < |s.shown|
    ensures s.shown[i] < s.shown[j]
  {
    ReachableStatesAreAccounted(s);
  }

  /** Once every build is done, the newest render is what is on screen, unless it was itself rejected. */
  lemma NewestRenderIsShown(s: State)
    requires Reachable(s) && s.building == {} && s.ticket !in s.failed && s.ticket > 0
    ensures s.shown != [] && s.shown[|s.shown| - 1] == s.ticket == s.owner
  {
    ReachableStatesAreAccounted(s);
  }

  /** What a page registered before it was replaced, overtaken or stopped for has run exactly once when it is gone. */
  lemma GonePagesAreUndoneOnce(s: State, x: Cleanup)
    requires Reachable(s) && x in s.registered && s.registered[x] !in s.failed && !Live(s, s.registered[x])
    ensures multiset(s.ran)[x] == 1
  {
    ReachableStatesAreAccounted(s);
    assert AccountedFor(s, x);
  }

  /** And nothing ever runs twice. */
  lemma NothingRunsTwice(s: State, x: Cleanup)
    requires Reachable(s)
    ensures multiset(s.ran)[x] <= 1
  {
    ReachableStatesAreAccounted(s);
    if x in s.ran { assert AccountedFor(s, x); }
  }

  /** Only stop undoes a page that is on screen: any other event runs cleanups of pages that are not. */
  lemma OnlyStopUndoesTheScreen(s: State, e: Event, k: nat)
    requires Reachable(s) && Legal(s, e) && Sound(s) && !e.Stop?
    requires var t := Next(s, e); |s.ran| <= k < |t.ran|
    ensures var t := Next(s, e);
            && s.ran <= t.ran && t.ran[k] in t.registered
            && (t.shown == [] || t.registered[t.ran[k]] != t.shown[|t.shown| - 1])
  {
    ReachableStatesAreAccounted(s);
    var t := Next(s, e);
    var list := if e.built != s.ticket then e.built else s.owner;
    assert t.ran[k] in s.lists[list];
    if s.owner == 0 { assert list != 0; }
  }
}
