/**
 The page observers of the browser controller. Pages come and go, and a new page may get the address of
 an old one; a refresh brings the list of observers in line with the runtime's pages.
 */
module Observers {
  import opened Wrappers

  /**
   An observer, known by its number. It holds the address of the page it was made for, until that page
   is destroyed; `page` is the page itself, which the program cannot see behind the address.
   */
  datatype Observer = Observer(number: nat, address: Option<nat>, page: nat)

  /** `live` gives the page now at each address in use; pages and observers are numbered as they come. */
  datatype State = State(
    live: map<nat, nat>,
    nextPage: nat,
    observers: seq<Observer>,
    nextObserver: nat,
    simulated: Option<Target>)

  /** The page whose behavior is simulated, with the address it is known by. */
  datatype Target = Target(address: nat, page: nat)

  const INITIAL := State(map[], 0, [], 0, None)

  predicate Wanted(o: Observer, list: seq<nat>) {
    o.address.Some? && o.address.value in list
  }

  predicate Observed(observers: seq<Observer>, address: nat) {
    exists i :: 0 <= i < |observers| && observers[i].address == Some(address)
  }

  /** remove_if: the observers that stay, in their order. */
  function Keep(observers: seq<Observer>, list: seq<nat>): seq<Observer>
    decreases |observers|
  {
    if observers == [] then []
    else
      var n := |observers| - 1;
      Keep(observers[..n], list) + (if Wanted(observers[n], list) then [observers[n]] else [])
  }

  function PageAt(s: State, address: nat): nat {
    if address in s.live then s.live[address] else 0
  }

  /** The appending loop: an observer for each page of the list that has none yet. */
  function AppendMissing(s: State, list: seq<nat>): State
    decreases |list|
  {
    if list == [] then s
    else
      var n := |list| - 1;
      var before := AppendMissing(s, list[..n]);
      if Observed(before.observers, list[n]) then before
      else before.(observers := before.observers + [Observer(before.nextObserver, Some(list[n]), PageAt(s, list[n]))],
                   nextObserver := before.nextObserver + 1)
  }

  /**
   `list` is what AllWebContents returns, or None without a runtime, and `active` the active page, to
   which the behavior simulator is pointed.
   */
  function Refresh(s: State, list: Option<seq<nat>>, active: Option<nat>): State {
    match list
    case None => s.(observers := [], simulated := None)
    case Some(pages) =>
      AppendMissing(s.(observers := Keep(s.observers, pages)), pages).(simulated := Aim(s, active))
  }

  function Aim(s: State, active: Option<nat>): Option<Target> {
    if active.None? then None else Some(Target(active.value, PageAt(s, active.value)))
  }

  function Notify(observers: seq<Observer>, page: nat): (after: seq<Observer>)
    ensures |after| == |observers|
    ensures forall i :: 0 <= i < |after| ==>
              after[i] == if observers[i].address.Some? && observers[i].page == page
                          then observers[i].(address := None) else observers[i]
  {
    if observers == [] then []
    else
      var o := observers[0];
      [if o.address.Some? && o.page == page then o.(address := None) else o] + Notify(observers[1..], page)
  }

  datatype Event =
    | Create(address: nat)
    | Destroy(address: nat)
    | RefreshWith(list: Option<seq<nat>>, active: Option<nat>)

  predicate AllLive(s: State, list: seq<nat>) {
    forall i :: 0 <= i < |list| ==> list[i] in s.live
  }

  /** Addresses are reused only once free; the runtime lists pages that exist. */
  predicate Enabled(s: State, e: Event) {
    match e
    case Create(address) => address !in s.live
    case Destroy(address) => address in s.live
    case RefreshWith(list, active) =>
      && (list.Some? ==> AllLive(s, list.value))
      && (active.Some? ==> active.value in s.live)
  }

  /** A page that is destroyed tells the observers attached to it. */
  function Step(s: State, e: Event): State
    requires Enabled(s, e)
  {
    match e
    case Create(address) => s.(live := s.live[address := s.nextPage], nextPage := s.nextPage + 1)
    case Destroy(address) =>
      s.(live := s.live - {address}, observers := Notify(s.observers, s.live[address]),
         simulated := if s.simulated.Some? && s.simulated.value.page == s.live[address] then None else s.simulated)
    case RefreshWith(list, active) => Refresh(s, list, active)
  }

  predicate Possible(s: State, events: seq<Event>)
    decreases |events|
  {
    events == [] || (Enabled(s, events[0]) && Possible(Step(s, events[0]), events[1..]))
  }

  function After(s: State, events: seq<Event>): State
    requires Possible(s, events)
    decreases |events|
  {
    if events == [] then s else After(Step(s, events[0]), events[1..])
  }

  // ---------- The invariant ----------

  /** An address an observer holds is that of its own page: addresses held are never stale. */
  predicate HoldsItsPage(s: State, o: Observer) {
    o.address.Some? ==> o.address.value in s.live && s.live[o.address.value] == o.page
  }

  predicate SimulatesItsPage(s: State) {
    s.simulated.Some? ==>
      s.simulated.value.address in s.live && s.live[s.simulated.value.address] == s.simulated.value.page
  }

  predicate PagesDiffer(s: State) {
    && (forall a, b :: a in s.live && b in s.live && s.live[a] == s.live[b] ==> a == b)
    && (forall a :: a in s.live ==> s.live[a] < s.nextPage)
  }

  predicate AddressesDiffer(observers: seq<Observer>) {
    forall i, j :: 0 <= i < j < |observers| && observers[i].address.Some? ==>
      observers[i].address != observers[j].address
  }

  predicate NumbersGrow(s: State) {
    && Increasing(s.observers)
    && (forall i :: 0 <= i < |s.observers| ==> s.observers[i].number < s.nextObserver)
  }

  ghost predicate Inv(s: State) {
    && PagesDiffer(s) && AddressesDiffer(s.observers) && NumbersGrow(s) && SimulatesItsPage(s)
    && (forall i :: 0 <= i < |s.observers| ==> HoldsItsPage(s, s.observers[i]))
  }

  lemma {:induction false} KeepMembers(observers: seq<Observer>, list: seq<nat>, o: Observer)
    ensures o in Keep(observers, list) <==> o in observers && Wanted(o, list)
    decreases |observers|
  {
    hide Wanted;
    if observers != [] {
      var n := |observers| - 1;
      KeepMembers(observers[..n], list, o);
      assert observers == observers[..n] + [observers[n]];
    }
  }

  predicate Increasing(observers: seq<Observer>) {
    forall i, j :: 0 <= i < j < |observers| ==> observers[i].number < observers[j].number
  }

  lemma {:induction false} KeepIncreasing(observers: seq<Observer>, list: seq<nat>)
    requires Increasing(observers)
    ensures Increasing(Keep(observers, list))
    decreases |observers|
  {
    hide Wanted;
    if observers != [] {
      var n := |observers| - 1;
      var kept := Keep(observers[..n], list);
      KeepIncreasing(observers[..n], list);
      forall i | 0 <= i < |kept| ensures kept[i].number < observers[n].number {
        KeepMembers(observers[..n], list, kept[i]);
        var j :| 0 <= j < n && observers[..n][j] == kept[i];
      }
    }
  }

  lemma {:induction false} KeepAddresses(observers: seq<Observer>, list: seq<nat>)
    requires AddressesDiffer(observers)
    ensures AddressesDiffer(Keep(observers, list))
    decreases |observers|
  {
    hide Wanted;
    if observers != [] {
      var n := |observers| - 1;
      var kept := Keep(observers[..n], list);
      KeepAddresses(observers[..n], list);
      forall i | 0 <= i < |kept| && kept[i].address.Some? ensures kept[i].address != observers[n].address {
        KeepMembers(observers[..n], list, kept[i]);
        var j :| 0 <= j < n && observers[..n][j] == kept[i];
      }
    }
  }

  lemma KeepInv(s: State, list: seq<nat>)
    requires Inv(s)
    ensures Inv(s.(observers := Keep(s.observers, list)))
  {
    hide Keep, PagesDiffer, AddressesDiffer, HoldsItsPage;
    KeepIncreasing(s.observers, list);
    KeepAddresses(s.observers, list);
    var kept := s.(observers := Keep(s.observers, list));
    forall i | 0 <= i < |kept.observers|
      ensures HoldsItsPage(kept, kept.observers[i]) && kept.observers[i].number < kept.nextObserver
    {
      KeepMembers(s.observers, list, kept.observers[i]);
      assert kept.observers[i] in s.observers;
      SamePages(s, kept, kept.observers[i]);
    }
    assert PagesDiffer(kept) by {
      SamePagesDiffer(s, kept);
    }
  }

  lemma SamePages(s: State, t: State, o: Observer)
    requires s.live == t.live && HoldsItsPage(s, o)
    ensures HoldsItsPage(t, o)
  {
  }

  lemma SamePagesDiffer(s: State, t: State)
    requires s.live == t.live && s.nextPage == t.nextPage && PagesDiffer(s)
    ensures PagesDiffer(t)
  {
  }

  /** What appending adds: the old observers stay in front, and new ones have new numbers. */
  lemma {:induction false} AppendMissingKeeps(s: State, list: seq<nat>)
    requires Inv(s) && AllLive(s, list)
    ensures var after := AppendMissing(s, list);
            && Inv(after) && after.live == s.live && after.nextPage == s.nextPage && after.simulated == s.simulated
            && s.observers <= after.observers && s.nextObserver <= after.nextObserver
            && (forall i :: |s.observers| <= i < |after.observers| ==>
                  Wanted(after.observers[i], list) && after.observers[i].number >= s.nextObserver)
    decreases |list|
  {
    hide PagesDiffer;
    if list != [] {
      var n := |list| - 1;
      AppendMissingKeeps(s, list[..n]);
      var before, after := AppendMissing(s, list[..n]), AppendMissing(s, list);
      SamePagesDiffer(before, after);
    }
  }

  lemma {:induction false} AppendMissingCovers(s: State, list: seq<nat>, k: nat)
    requires k < |list|
    ensures Observed(AppendMissing(s, list).observers, list[k])
    decreases |list|
  {
    var n := |list| - 1;
    var before, after := AppendMissing(s, list[..n]), AppendMissing(s, list);
    if k < n {
      AppendMissingCovers(s, list[..n], k);
      var i :| 0 <= i < |before.observers| && before.observers[i].address == Some(list[k]);
      assert after.observers[i] == before.observers[i];
    } else if !Observed(before.observers, list[n]) {
      assert after.observers[|before.observers|].address == Some(list[n]);
    }
  }

  lemma RefreshKeeps(s: State, list: Option<seq<nat>>, active: Option<nat>)
    requires Inv(s) && Enabled(s, RefreshWith(list, active))
    ensures Inv(Refresh(s, list, active))
  {
    hide Keep, AppendMissing, PagesDiffer, AddressesDiffer, NumbersGrow, HoldsItsPage;
    if list.Some? {
      KeepInv(s, list.value);
      var kept := s.(observers := Keep(s.observers, list.value));
      AppendMissingKeeps(kept, list.value);
      Aimed(AppendMissing(kept, list.value), Refresh(s, list, active));
    } else {
      Cleared(s);
    }
  }

  lemma Aimed(s: State, t: State)
    requires Inv(s) && t == s.(simulated := t.simulated) && SimulatesItsPage(t)
    ensures Inv(t)
  {
  }

  lemma Cleared(s: State)
    requires Inv(s)
    ensures Inv(s.(observers := [], simulated := None))
  {
  }

  lemma CreateKeeps(s: State, address: nat)
    requires Inv(s) && Enabled(s, Create(address))
    ensures Inv(Step(s, Create(address)))
  {
    hide Keep, AppendMissing, Notify;
  }

  lemma DestroyKeeps(s: State, address: nat)
    requires Inv(s) && Enabled(s, Destroy(address))
    ensures Inv(Step(s, Destroy(address)))
  {
    hide Keep, AppendMissing, Notify;
  }

  lemma StepKeeps(s: State, e: Event)
    requires Inv(s) && Enabled(s, e)
    ensures Inv(Step(s, e))
  {
    hide Inv, Keep, AppendMissing, Notify;
    match e {
      case Create(address) => CreateKeeps(s, address);
      case Destroy(address) => DestroyKeeps(s, address);
      case RefreshWith(list, active) => RefreshKeeps(s, list, active);
    }
  }

  lemma {:induction false} RunKeeps(s: State, events: seq<Event>)
    requires Inv(s) && Possible(s, events)
    ensures Inv(After(s, events))
    decreases |events|
  {
    hide Inv, Step, Enabled;
    if events != [] {
      StepKeeps(s, events[0]);
      RunKeeps(Step(s, events[0]), events[1..]);
    }
  }

  ghost predicate Reachable(s: State) {
    exists events :: Possible(INITIAL, events) && After(INITIAL, events) == s
  }

  lemma ReachableInv(s: State)
    requires Reachable(s)
    ensures Inv(s)
  {
    hide Inv, After, Possible;
    var events :| Possible(INITIAL, events) && After(INITIAL, events) == s;
    assert Inv(INITIAL) by {
      InitialInv();
    }
    RunKeeps(INITIAL, events);
  }

  lemma InitialInv()
    ensures Inv(INITIAL)
  {
  }

  // ---------- The theorems ----------

  predicate Watches(o: Observer, page: nat) {
    o.address.Some? && o.page == page
  }

  predicate Watched(observers: seq<Observer>, page: nat) {
    exists i :: 0 <= i < |observers| && Watches(observers[i], page)
  }

  predicate WatchesOneOf(s: State, list: seq<nat>, o: Observer)
    requires AllLive(s, list)
  {
    exists k :: 0 <= k < |list| && Watches(o, s.live[list[k]])
  }

  lemma RefreshFacts(s: State, list: seq<nat>, active: Option<nat>)
    requires Inv(s) && Enabled(s, RefreshWith(Some(list), active))
    ensures var after := Refresh(s, Some(list), active);
            && Inv(after) && after.live == s.live
            && (forall i :: 0 <= i < |after.observers| ==> Wanted(after.observers[i], list))
            && (forall k :: 0 <= k < |list| ==> Observed(after.observers, list[k]))
  {
    hide Inv, Keep, AppendMissing, Observed, Wanted;
    RefreshKeeps(s, Some(list), active);
    KeepInv(s, list);
    var kept := s.(observers := Keep(s.observers, list));
    AppendMissingKeeps(kept, list);
    var after := AppendMissing(kept, list).observers;
    forall i | 0 <= i < |kept.observers| ensures Wanted(after[i], list) {
      KeepMembers(s.observers, list, after[i]);
    }
    forall k | 0 <= k < |list| ensures Observed(after, list[k]) {
      AppendMissingCovers(kept, list, k);
    }
  }

  /**
   After a refresh, in any history of pages created and destroyed, the observers watch exactly the pages
   of the list, by the pages' identity and not their address, and no page is watched twice.
   */
  lemma RefreshWatchesExactly(s: State, list: seq<nat>, active: Option<nat>)
    requires Reachable(s) && Enabled(s, RefreshWith(Some(list), active))
    ensures var after := Refresh(s, Some(list), active).observers;
            && (forall k :: 0 <= k < |list| ==> Watched(after, s.live[list[k]]))
            && (forall i :: 0 <= i < |after| ==> WatchesOneOf(s, list, after[i]))
            && (forall i, j :: 0 <= i < j < |after| ==> after[i].page != after[j].page)
  {
    hide Refresh, Inv, Observed, Wanted, Watched, WatchesOneOf;
    ReachableInv(s);
    RefreshFacts(s, list, active);
    var t := Refresh(s, Some(list), active);
    var after := t.observers;
    forall i | 0 <= i < |after| ensures WatchesOneOf(s, list, after[i]) {
      WatchesListed(s, t, list, i);
    }
    forall k | 0 <= k < |list| ensures Watched(after, s.live[list[k]]) {
      ListedWatched(t, list, k);
    }
    forall i, j | 0 <= i < j < |after| ensures after[i].page != after[j].page {
      assert Wanted(after[i], list) && Wanted(after[j], list);
      WatchDifferentPages(t, list, i, j);
    }
  }

  lemma WatchesListed(s: State, t: State, list: seq<nat>, i: nat)
    requires Inv(t) && t.live == s.live && AllLive(s, list) && i < |t.observers| && Wanted(t.observers[i], list)
    ensures WatchesOneOf(s, list, t.observers[i])
  {
    assert HoldsItsPage(t, t.observers[i]);
    var k :| 0 <= k < |list| && list[k] == t.observers[i].address.value;
    assert Watches(t.observers[i], s.live[list[k]]);
  }

  lemma ListedWatched(s: State, list: seq<nat>, k: nat)
    requires Inv(s) && AllLive(s, list) && k < |list| && Observed(s.observers, list[k])
    ensures Watched(s.observers, s.live[list[k]])
  {
    var i :| 0 <= i < |s.observers| && s.observers[i].address == Some(list[k]);
    assert HoldsItsPage(s, s.observers[i]);
    assert Watches(s.observers[i], s.live[list[k]]);
  }

  lemma WatchDifferentPages(s: State, list: seq<nat>, i: nat, j: nat)
    requires Inv(s) && i < j < |s.observers| && Wanted(s.observers[i], list) && Wanted(s.observers[j], list)
    ensures s.observers[i].page != s.observers[j].page
  {
    assert HoldsItsPage(s, s.observers[i]) && HoldsItsPage(s, s.observers[j]);
  }

  /** An observer that still watches a listed page survives a refresh as itself; all others are dropped. */
  lemma SurvivorsStay(s: State, list: seq<nat>, active: Option<nat>, o: Observer)
    requires Reachable(s) && AllLive(s, list) && o in s.observers
    ensures o in Refresh(s, Some(list), active).observers <==> o.address.Some? && o.address.value in list
  {
    hide Keep, AppendMissing, PagesDiffer, AddressesDiffer, HoldsItsPage;
    ReachableInv(s);
    KeepInv(s, list);
    KeepMembers(s.observers, list, o);
    var kept := s.(observers := Keep(s.observers, list));
    AppendMissingKeeps(kept, list);
  }

  /** Observers are numbered in the order of the list: survivors keep their order, newcomers follow. */
  lemma OrderKept(s: State, list: Option<seq<nat>>, active: Option<nat>, i: nat, j: nat)
    requires Reachable(s) && Enabled(s, RefreshWith(list, active)) && i < j < |Refresh(s, list, active).observers|
    ensures var after := Refresh(s, list, active).observers;
            && after[i].number < after[j].number
            && (after[j] in s.observers ==> after[i] in s.observers)
  {
    hide Keep, AppendMissing, PagesDiffer, AddressesDiffer, HoldsItsPage, Wanted;
    ReachableInv(s);
    if list.Some? {
      KeepInv(s, list.value);
      var kept := s.(observers := Keep(s.observers, list.value));
      AppendMissingKeeps(kept, list.value);
      var after := AppendMissing(kept, list.value).observers;
      if i < |kept.observers| {
        KeepMembers(s.observers, list.value, after[i]);
      }
    }
  }

  /**
   The simulator's page always exists and is the one at its address; a refresh points it at the active
   page and at no other.
   */
  lemma SimulatorFollows(s: State, list: Option<seq<nat>>, active: Option<nat>)
    requires Reachable(s) && Enabled(s, RefreshWith(list, active))
    ensures SimulatesItsPage(s)
    ensures var after := Refresh(s, list, active).simulated;
            if list.None? || active.None? then after == None
            else after == Some(Target(active.value, s.live[active.value]))
  {
    hide Keep, AppendMissing, PagesDiffer, AddressesDiffer, NumbersGrow, HoldsItsPage;
    ReachableInv(s);
  }

  /** New observers come in the order of the list: each has its page listed before any mention of a later one's. */
  lemma {:induction false} NewcomersInListOrder(s: State, list: seq<nat>, i: nat, j: nat, p: nat)
    requires Inv(s) && AllLive(s, list)
    requires |s.observers| <= i < j < |AppendMissing(s, list).observers| && p < |list|
    requires AppendMissing(s, list).observers[j].address == Some(list[p])
    ensures exists q :: 0 <= q < p && AppendMissing(s, list).observers[i].address == Some(list[q])
    decreases |list|
  {
    hide Inv, PagesDiffer;
    var n := |list| - 1;
    var before, after := AppendMissing(s, list[..n]), AppendMissing(s, list);
    AppendMissingKeeps(s, list[..n]);
    if p < n && j < |before.observers| {
      NewcomersInListOrder(s, list[..n], i, j, p);
      var q :| 0 <= q < p && before.observers[i].address == Some(list[..n][q]);
      assert list[q] == list[..n][q];
    } else {
      if p < n {
        AppendMissingCovers(s, list[..n], p);
      }
      var q := ListedFor(s, list[..n], i);
      assert list[q] == list[..n][q];
    }
  }

  lemma ListedFor(s: State, list: seq<nat>, i: nat) returns (q: nat)
    requires Inv(s) && AllLive(s, list) && |s.observers| <= i < |AppendMissing(s, list).observers|
    ensures q < |list| && AppendMissing(s, list).observers[i].address == Some(list[q])
  {
    hide Inv;
    AppendMissingKeeps(s, list);
    assert Wanted(AppendMissing(s, list).observers[i], list);
    q :| 0 <= q < |list| && list[q] == AppendMissing(s, list).observers[i].address.value;
  }

  /** After a refresh, the observers that are new come in the order in which the list first names their pages. */
  lemma NewcomersFollowList(s: State, list: seq<nat>, active: Option<nat>, i: nat, j: nat, p: nat)
    requires Reachable(s) && Enabled(s, RefreshWith(Some(list), active))
    requires i < j < |Refresh(s, Some(list), active).observers| && p < |list|
    requires var after := Refresh(s, Some(list), active).observers;
             after[i] !in s.observers && after[j] !in s.observers && after[j].address == Some(list[p])
    ensures exists q :: 0 <= q < p && Refresh(s, Some(list), active).observers[i].address == Some(list[q])
  {
    hide Keep, AppendMissing, PagesDiffer, AddressesDiffer, NumbersGrow, HoldsItsPage, Wanted;
    ReachableInv(s);
    KeepInv(s, list);
    var kept := s.(observers := Keep(s.observers, list));
    AppendMissingKeeps(kept, list);
    if i < |kept.observers| {
      KeepMembers(s.observers, list, kept.observers[i]);
    }
    NewcomersInListOrder(kept, list, i, j, p);
  }

  /** Without a runtime a refresh drops every observer and points the simulator at nothing. */
  lemma NoRuntimeClears(s: State, active: Option<nat>)
    ensures var after := Refresh(s, None, active);
            after.observers == [] && after.simulated == None && after.live == s.live
  {
  }

  /** A new page changes no observer, even at an address that an observer once held, and gets a number of its own. */
  lemma CreationTouchesNoObserver(s: State, address: nat)
    requires Reachable(s) && Enabled(s, Create(address))
    ensures var after := Step(s, Create(address));
            && after.observers == s.observers && after.simulated == s.simulated
            && after.live == s.live[address := s.nextPage]
            && (forall i :: 0 <= i < |s.observers| ==> s.observers[i].address != Some(address))
            && (forall a :: a in s.live ==> s.live[a] != s.nextPage)
  {
    ReachableInv(s);
    hide AddressesDiffer, NumbersGrow, Keep, AppendMissing, Notify;
  }

  /** A page's end detaches its own observer and its own simulation, and no other. */
  lemma DestructionDetachesItsOwn(s: State, address: nat)
    requires Reachable(s) && Enabled(s, Destroy(address))
    ensures var after := Step(s, Destroy(address));
            && |after.observers| == |s.observers| && address !in after.live
            && (forall i :: 0 <= i < |s.observers| ==>
                  after.observers[i] == if s.observers[i].address == Some(address) then s.observers[i].(address := None)
                                        else s.observers[i])
            && after.simulated == (if s.simulated.Some? && s.simulated.value.address == address then None
                                   else s.simulated)
  {
    ReachableInv(s);
    hide AddressesDiffer, NumbersGrow, Keep, AppendMissing;
    forall i | 0 <= i < |s.observers|
      ensures s.observers[i].address.Some? ==>
              (s.observers[i].address == Some(address) <==> s.observers[i].page == s.live[address])
    {
      assert HoldsItsPage(s, s.observers[i]);
    }
  }
}
