/** What holds of the tabs in every reachable state. */
module GuiTabTheorems {
  import opened Wrappers
  import opened Counting
  import opened GuiTabs

  // ---------- Sequences of windows ----------

  lemma {:induction false} WindowsAppend(a: seq<Tab>, b: seq<Tab>)
    ensures Windows(a + b) == Windows(a) + Windows(b)
  {
    if a == [] {
      assert a + b == b;
    } else {
      assert (a + b)[1..] == a[1..] + b;
      WindowsAppend(a[1..], b);
    }
  }

  lemma WindowsCons(t: Tab, rest: seq<Tab>)
    ensures Windows([t] + rest) == [t.window] + Windows(rest)
  {
    assert ([t] + rest)[1..] == rest;
  }

  lemma WithoutCons(t: Tab, rest: seq<Tab>, k: nat)
    requires k < |rest|
    ensures Without([t] + rest, k + 1) == [t] + Without(rest, k)
  {
  }

  lemma {:induction false} WindowsWithout(tabs: seq<Tab>, k: nat)
    requires k < |tabs|
    ensures multiset(Windows(tabs)) == multiset(Windows(Without(tabs, k))) + multiset{tabs[k].window}
    decreases k
  {
    hide Windows, Without;
    var t, rest := tabs[0], tabs[1..];
    assert tabs == [t] + rest;
    WindowsCons(t, rest);
    CountsCons(t.window, Windows(rest));
    if k == 0 {
      assert Without(tabs, 0) == rest by { WithoutFirst(tabs); }
    } else {
      WindowsWithout(rest, k - 1);
      WithoutCons(t, rest, k - 1);
      WindowsCons(t, Without(rest, k - 1));
      CountsCons(t.window, Windows(Without(rest, k - 1)));
    }
  }

  lemma WithoutFirst(tabs: seq<Tab>)
    requires tabs != []
    ensures Without(tabs, 0) == tabs[1..]
  {
  }

  lemma DistinctWindows(g: Runtime, i: nat, j: nat)
    requires WindowsAccounted(g) && i < j < |g.tabs|
    ensures g.tabs[i].window != g.tabs[j].window
  {
    var windows := Windows(g.tabs);
    if windows[i] == windows[j] {
      TwiceCounts(windows, i, j);
      UptoCounts(|g.made|, windows[i]);
    }
  }

  lemma IdNamesOneTab(g: Runtime, i: nat, j: nat)
    requires Inv(g) && i < j < |g.tabs|
    ensures g.tabs[i].id != g.tabs[j].id
  {
    hide Windows, WindowsAccounted, ActiveNamesATab;
    DistinctWindows(g, i, j);
    var v, w := g.tabs[i].window, g.tabs[j].window;
    assert g.made[v] == g.tabs[i].id && g.made[w] == g.tabs[j].id;
  }

  // ---------- Every step keeps the invariant ----------

  lemma FreshInv(shutdownOnZeroTabs: bool, hasQuit: bool)
    ensures Inv(Fresh(shutdownOnZeroTabs, hasQuit))
  {
  }

  lemma FreshIdsGrow(g: Runtime, made: seq<string>)
    requires IdsAreFresh(g) && (made == g.made || made == g.made + [TargetId(g.nextTabId)])
    ensures IdsAreFresh(g.(nextTabId := g.nextTabId + 1, made := made))
  {
    hide TargetId;
    IdNotEmpty(g.nextTabId);
    forall n: nat | n >= g.nextTabId + 1 ensures TargetId(n) !in made {
      if TargetId(n) == TargetId(g.nextTabId) {
        TargetIdInjective(n, g.nextTabId);
      }
    }
  }

  lemma CreateKeeps(g: Runtime, creation: Creation)
    requires Inv(g)
    ensures Inv(CreateTab(g, creation).0)
  {
    hide TargetId, IdsAreFresh, Windows, WindowsAccounted;
    match creation {
      case NoContents =>
      case NoWindow =>
        FreshIdsGrow(g, g.made);
        SameWindows(g, CreateTab(g, creation).0);
      case Opened =>
        var id := TargetId(g.nextTabId);
        FreshIdsGrow(g, g.made + [id]);
        var after := CreateTab(g, creation).0;
        IdNotEmpty(g.nextTabId);
        assert IdsAreFresh(after) by {
          SameIds(g.(nextTabId := g.nextTabId + 1, made := g.made + [id]), after);
        }
        OpenedAccounted(g, id, after);
        assert after.tabs[|g.tabs|].id == after.active;
    }
  }

  lemma OpenedAccounted(g: Runtime, id: string, after: Runtime)
    requires WindowsAccounted(g)
    requires after.tabs == g.tabs + [Tab(id, |g.made|, true)] && after.closed == g.closed
    requires after.made == g.made + [id]
    ensures WindowsAccounted(after)
  {
    hide Windows;
    var before: seq<nat>, windows: seq<nat> := Windows(g.tabs), Windows(after.tabs);
    var window: nat := |g.made|;
    assert windows == before + [window];
    assert multiset(windows) == multiset(before) + multiset{window};
    assert multiset(Upto(|after.made|)) == multiset(Upto(window)) + multiset{window};
  }

  lemma SameWindows(g: Runtime, h: Runtime)
    requires WindowsAccounted(g) && Windows(h.tabs) == Windows(g.tabs) && h.closed == g.closed && |h.made| == |g.made|
    ensures WindowsAccounted(h)
  {
  }

  lemma SameIds(g: Runtime, h: Runtime)
    requires IdsAreFresh(g) && h.made == g.made && h.nextTabId == g.nextTabId
    ensures IdsAreFresh(h)
  {
  }

  lemma IdNotEmpty(n: nat)
    ensures TargetId(n) != ""
  {
  }

  lemma ShutdownKeeps(g: Runtime)
    requires IdsAreFresh(g) && TabsNameTheirWindows(g) && WindowsAccounted(g) && QuitsOnce(g)
    requires g.shutdownStarted ==> ActiveNamesATab(g)
    ensures Inv(Shutdown(g))
  {
    hide IdsAreFresh, Windows, WindowsAccounted;
    var after := Shutdown(g);
    SameIds(g, after);
    if !g.shutdownStarted {
      AllClosed(g, after);
    }
  }

  lemma AllClosed(g: Runtime, after: Runtime)
    requires WindowsAccounted(g)
    requires after.tabs == [] && after.closed == g.closed + Windows(g.tabs) && |after.made| == |g.made|
    ensures WindowsAccounted(after)
  {
    hide Windows;
    var windows: seq<nat>, closed: seq<nat> := Windows(g.tabs), after.closed;
    assert multiset(closed) == multiset(g.closed) + multiset(windows);
  }

  lemma OneClosed(g: Runtime, k: nat, after: Runtime)
    requires WindowsAccounted(g) && k < |g.tabs|
    requires after.tabs == Without(g.tabs, k) && after.closed == g.closed + [g.tabs[k].window]
    requires |after.made| == |g.made|
    ensures WindowsAccounted(after)
  {
    hide Windows;
    WindowsWithout(g.tabs, k);
    var closed: seq<nat> := after.closed;
    assert multiset(closed) == multiset(g.closed) + multiset{g.tabs[k].window};
  }

  lemma RemoveKeeps(g: Runtime, k: nat)
    requires Inv(g) && k < |g.tabs|
    ensures Inv(RemoveTab(g, k))
  {
    hide IdsAreFresh, Windows, WindowsAccounted, TabsNameTheirWindows;
    var erased := g.(tabs := Without(g.tabs, k), closed := g.closed + [g.tabs[k].window]);
    var chosen := if g.active == g.tabs[k].id then ChooseFallbackActiveTab(erased) else erased;
    SameIds(g, erased);
    NamesKept(g, k, erased);
    NamesKept(g, k, chosen);
    OneClosed(g, k, erased);
    SameIds(erased, chosen);
    SameWindows(erased, chosen);
    assert ActiveNamesATab(chosen) by {
      StillActive(g, k);
    }
    if chosen.tabs == [] && g.shutdownOnZeroTabs {
      ShutdownKeeps(chosen);
    }
  }

  lemma NamesKept(g: Runtime, k: nat, after: Runtime)
    requires TabsNameTheirWindows(g) && k < |g.tabs|
    requires after.tabs == Without(g.tabs, k) && after.made == g.made && after.posted == g.posted
    ensures TabsNameTheirWindows(after)
  {
    forall i | 0 <= i < |after.tabs| ensures after.tabs[i] == g.tabs[if i < k then i else i + 1] {
    }
  }

  lemma StillActive(g: Runtime, k: nat)
    requires ActiveNamesATab(g) && k < |g.tabs|
    ensures var without := Without(g.tabs, k);
            if g.active == g.tabs[k].id then without == [] || HasTab(without, without[0].id)
            else HasTab(without, g.active)
  {
    var without := Without(g.tabs, k);
    if g.active != g.tabs[k].id {
      var i :| 0 <= i < |g.tabs| && g.tabs[i].id == g.active;
      assert without[if i < k then i else i - 1] == g.tabs[i];
    }
  }

  lemma UserClosesKeeps(g: Runtime, k: nat)
    requires Inv(g) && k < |g.tabs| && g.tabs[k].closeCallback
    ensures Inv(OnWindowCloseRequested(g, k))
  {
    hide IdsAreFresh, Windows, WindowsAccounted;
    var after := OnWindowCloseRequested(g, k);
    SameIds(g, after);
    assert Windows(after.tabs) == Windows(g.tabs);
    SameWindows(g, after);
    if g.tabs != [] {
      var i :| 0 <= i < |g.tabs| && g.tabs[i].id == g.active;
      assert after.tabs[i].id == g.active;
    }
  }

  lemma StepKeeps(g: Runtime, e: Event)
    requires Inv(g) && Enabled(g, e)
    ensures Inv(Step(g, e))
  {
    hide Inv, CreateTab, RemoveTab, OnWindowCloseRequested, Shutdown;
    match e {
      case Create(creation) => CreateKeeps(g, creation);
      case Close(target) =>
        var id := if target.Some? then target.value else g.active;
        var k := Find(g.tabs, id);
        if k < |g.tabs| {
          RemoveKeeps(g, k);
        }
      case UserCloses(k) => UserClosesKeeps(g, k);
      case RunPosted =>
        var taken := g.(posted := g.posted[1..]);
        MessageTaken(g);
        if Find(taken.tabs, g.posted[0].id) < |taken.tabs| {
          RemoveKeeps(taken, Find(taken.tabs, g.posted[0].id));
        }
      case ShutDown =>
        InvParts(g);
        ShutdownKeeps(g);
    }
  }

  lemma InvParts(g: Runtime)
    requires Inv(g)
    ensures ActiveNamesATab(g) && IdsAreFresh(g) && TabsNameTheirWindows(g) && WindowsAccounted(g) && QuitsOnce(g)
  {
  }

  lemma MessageTaken(g: Runtime)
    requires Inv(g) && g.posted != []
    ensures Inv(g.(posted := g.posted[1..]))
  {
    hide IdsAreFresh, Windows, WindowsAccounted;
    var taken := g.(posted := g.posted[1..]);
    SameIds(g, taken);
    SameWindows(g, taken);
  }

  lemma {:induction false} RunKeeps(g: Runtime, events: seq<Event>)
    requires Inv(g) && Possible(g, events)
    ensures Inv(After(g, events))
    decreases |events|
  {
    hide Inv, Step, Enabled;
    if events != [] {
      StepKeeps(g, events[0]);
      RunKeeps(Step(g, events[0]), events[1..]);
    }
  }

  // ---------- The theorems ----------

  ghost predicate Reachable(g: Runtime) {
    exists shutdownOnZeroTabs, hasQuit, events ::
      Possible(Fresh(shutdownOnZeroTabs, hasQuit), events) && After(Fresh(shutdownOnZeroTabs, hasQuit), events) == g
  }

  lemma ReachableInv(g: Runtime)
    requires Reachable(g)
    ensures Inv(g)
  {
    hide Inv, After, Possible;
    var shutdownOnZeroTabs, hasQuit, events :|
      Possible(Fresh(shutdownOnZeroTabs, hasQuit), events) && After(Fresh(shutdownOnZeroTabs, hasQuit), events) == g;
    FreshInv(shutdownOnZeroTabs, hasQuit);
    RunKeeps(Fresh(shutdownOnZeroTabs, hasQuit), events);
  }

  /**
   In every reachable state the tabs have different ids; nothing is active exactly when there are no
   tabs, and otherwise the active id names one; and the quit callback has run once if a shutdown has
   started, never otherwise.
   */
  lemma TabsStayConsistent(g: Runtime)
    requires Reachable(g)
    ensures forall i, j :: 0 <= i < j < |g.tabs| ==> g.tabs[i].id != g.tabs[j].id
    ensures g.active == "" <==> g.tabs == []
    ensures g.tabs != [] ==> HasTab(g.tabs, g.active)
    ensures g.quits == if g.shutdownStarted && g.hasQuit then 1 else 0
  {
    hide Windows, WindowsAccounted;
    ReachableInv(g);
    forall i, j | 0 <= i < j < |g.tabs| ensures g.tabs[i].id != g.tabs[j].id {
      IdNamesOneTab(g, i, j);
    }
  }

  /** No id is ever given twice, and every window is open or was closed, exactly once. */
  lemma IdsNeverReused(g: Runtime)
    requires Reachable(g)
    ensures Distinct(g.made) && multiset(Windows(g.tabs)) + multiset(g.closed) == multiset(Upto(|g.made|))
    ensures TargetId(g.nextTabId) !in g.made
  {
    hide Windows;
    ReachableInv(g);
  }

  /** A message removes the tab whose window posted it, if that is still open, and no other. */
  lemma DelayedCloseRemovesItsOwnTab(g: Runtime, i: nat)
    requires Reachable(g) && g.posted != [] && i < |g.tabs|
    ensures var k := Find(g.tabs, g.posted[0].id);
            g.tabs[i].window == g.posted[0].window <==> i == k
  {
    hide Windows, WindowsAccounted;
    ReachableInv(g);
    var k := Find(g.tabs, g.posted[0].id);
    var w := g.posted[0].window;
    assert g.made[w] == g.posted[0].id;
    assert g.made[g.tabs[i].window] == g.tabs[i].id;
    if k < |g.tabs| {
      assert g.made[g.tabs[k].window] == g.tabs[k].id;
    }
    if g.tabs[i].window == w && i > k {
      DistinctWindows(g, k, i);
    }
  }

  /** The program closes one tab, or a posted message does. */
  predicate Closes(e: Event) {
    e.Close? || e.RunPosted?
  }

  /** The tab a close asks for: the one named, the active one, or the message's. */
  function ClosedId(g: Runtime, e: Event): string
    requires Enabled(g, e) && Closes(e)
  {
    if e.RunPosted? then g.posted[0].id else if e.target.Some? then e.target.value else g.active
  }

  /**
   A close removes the tab asked for, if there is one, and keeps the others in their order. The active
   tab stays active unless it was the one removed; then the first remaining tab becomes active.
   */
  lemma CloseRemovesOneTab(g: Runtime, e: Event)
    requires Reachable(g) && Enabled(g, e) && Closes(e)
    ensures var after, id := Step(g, e), ClosedId(g, e);
            if HasTab(g.tabs, id) then
              exists k :: 0 <= k < |g.tabs| && g.tabs[k].id == id &&
                after.tabs == Without(g.tabs, k) && after.closed == g.closed + [g.tabs[k].window] &&
                after.active == (if g.active != id then g.active
                                 else if after.tabs == [] then "" else after.tabs[0].id)
            else after.tabs == g.tabs && after.closed == g.closed && after.active == g.active
  {
    hide Windows, WindowsAccounted, Find, RemoveTab, Without, Reachable, IdsAreFresh, Inv, Shutdown, CreateTab,
         TabsNameTheirWindows;
    TabsStayConsistent(g);
    var start := if e.RunPosted? then g.(posted := g.posted[1..]) else g;
    var id := ClosedId(g, e);
    var k := Find(g.tabs, id);
    if HasTab(g.tabs, id) {
      var i :| 0 <= i < |g.tabs| && g.tabs[i].id == id;
      TabsHaveIds(g, i);
      assert Step(g, e) == RemoveTab(start, k);
      RemovalEffect(start, k);
    }
  }

  lemma TabsHaveIds(g: Runtime, i: nat)
    requires Reachable(g) && i < |g.tabs|
    ensures g.tabs[i].id != ""
  {
    hide Windows, WindowsAccounted;
    ReachableInv(g);
    assert g.made[g.tabs[i].window] == g.tabs[i].id;
  }

  lemma RemovalEffect(g: Runtime, k: nat)
    requires k < |g.tabs| && (|g.tabs| == 1 ==> g.active == g.tabs[0].id)
    ensures var after := RemoveTab(g, k);
            && after.tabs == Without(g.tabs, k) && after.closed == g.closed + [g.tabs[k].window]
            && after.active == (if g.active != g.tabs[k].id then g.active
                                else if after.tabs == [] then "" else after.tabs[0].id)
            && (after.tabs == [] && g.shutdownOnZeroTabs ==> after.shutdownStarted)
            && after.shutdownOnZeroTabs == g.shutdownOnZeroTabs && after.hasQuit == g.hasQuit
  {
    hide Find;
  }

  /** With `shutdown_on_zero_tabs`, a close that leaves no tab has the quit callback run, once. */
  lemma LastCloseQuits(g: Runtime, e: Event)
    requires Reachable(g) && Enabled(g, e) && Closes(e)
    requires g.tabs != [] && Step(g, e).tabs == [] && g.shutdownOnZeroTabs
    ensures var after := Step(g, e);
            after.shutdownStarted && after.quits == if g.hasQuit then 1 else 0
  {
    hide Windows, WindowsAccounted, Find, IdsAreFresh;
    ReachableInv(g);
    StepKeeps(g, e);
    TabsStayConsistent(g);
    var start := if e.RunPosted? then g.(posted := g.posted[1..]) else g;
    var id := ClosedId(g, e);
    var k := Find(g.tabs, id);
    assert Step(g, e) == RemoveTab(start, k);
    RemovalEffect(start, k);
  }

  // ---------- What each of the other operations does ----------

  /**
   A creation that succeeds puts one tab after the old ones, with an id that no tab ever had, a window of its
   own and a close callback; that id is returned and becomes the active one. A creation that fails leaves
   the tabs and the active id as they were and returns nothing. Neither closes or posts anything.
   */
  lemma CreateAddsActiveTab(g: Runtime, creation: Creation)
    requires Reachable(g)
    ensures var (after, info) := CreateTab(g, creation);
            && Step(g, Create(creation)) == after
            && after.closed == g.closed && after.posted == g.posted && after.quits == g.quits
            && after.shutdownStarted == g.shutdownStarted
            && if creation.Opened? then
                 && |after.tabs| == |g.tabs| + 1 && after.tabs[..|g.tabs|] == g.tabs
                 && info == Some(after.tabs[|g.tabs|].id) && after.active == after.tabs[|g.tabs|].id
                 && after.active !in g.made && after.made == g.made + [after.active]
                 && after.tabs[|g.tabs|].window == |g.made| && after.tabs[|g.tabs|].closeCallback
               else info.None? && after.tabs == g.tabs && after.active == g.active && after.made == g.made
  {
    hide Windows, WindowsAccounted, TargetId;
    ReachableInv(g);
  }

  /** The user closing a window posts one message for its tab, and uses up its callback; the tab stays. */
  lemma UserCloseOnlyPosts(g: Runtime, k: nat)
    requires Enabled(g, UserCloses(k))
    ensures var after := Step(g, UserCloses(k));
            && after.posted == g.posted + [Message(g.tabs[k].id, g.tabs[k].window)]
            && |after.tabs| == |g.tabs|
            && (forall i :: 0 <= i < |g.tabs| ==>
                  after.tabs[i].id == g.tabs[i].id && after.tabs[i].window == g.tabs[i].window &&
                  after.tabs[i].closeCallback == (g.tabs[i].closeCallback && i != k))
            && after.active == g.active && after.closed == g.closed && after.quits == g.quits
            && !Enabled(after, UserCloses(k))
  {
  }

  /** The first shutdown closes every window, in the order of the tabs, and quits; any other does nothing. */
  lemma ShutdownClosesAll(g: Runtime)
    ensures var after := Step(g, ShutDown);
            if g.shutdownStarted then after == g
            else
              && after.tabs == [] && after.active == "" && after.shutdownStarted
              && |after.closed| == |g.closed| + |g.tabs| && g.closed <= after.closed
              && (forall i :: 0 <= i < |g.tabs| ==> after.closed[|g.closed| + i] == g.tabs[i].window)
              && after.quits == g.quits + (if g.hasQuit then 1 else 0) && after.posted == g.posted
  {
  }

  lemma RemovalOpensNothing(g: Runtime, k: nat)
    requires k < |g.tabs|
    ensures var after := RemoveTab(g, k);
            after.made == g.made && after.nextTabId == g.nextTabId && after.posted == g.posted
  {
    hide Windows, Without;
  }

  /** A close opens no window and gives no id; a posted message is used up, and a close posts none. */
  lemma ClosesOnlyClose(g: Runtime, e: Event)
    requires Enabled(g, e) && Closes(e)
    ensures var after := Step(g, e);
            && after.made == g.made && after.nextTabId == g.nextTabId
            && after.posted == (if e.RunPosted? then g.posted[1..] else g.posted)
  {
    hide RemoveTab, Find;
    var start := if e.RunPosted? then g.(posted := g.posted[1..]) else g;
    var k := Find(g.tabs, ClosedId(g, e));
    if k < |g.tabs| {
      RemovalOpensNothing(start, k);
    }
  }

  /** Closing reports whether there was such a tab. */
  lemma CloseReportsWhetherFound(g: Runtime, target: Option<string>)
    requires Reachable(g)
    ensures CloseTab(g, target).1 <==>
            exists i :: 0 <= i < |g.tabs| && g.tabs[i].id == if target.Some? then target.value else g.active
  {
    hide Windows, WindowsAccounted, RemoveTab;
    forall i | 0 <= i < |g.tabs| ensures g.tabs[i].id != "" {
      TabsHaveIds(g, i);
    }
  }

  // ---------- The form of the ids ----------

  predicate Digits(s: string) {
    forall i :: 0 <= i < |s| ==> '0' <= s[i] <= '9'
  }

  /** The number that a string of digits stands for. */
  function NumberOf(s: string): nat
    requires Digits(s)
  {
    if s == "" then 0 else 10 * NumberOf(s[..|s| - 1]) + (s[|s| - 1] as int - '0' as int)
  }

  /** Decimal numbers are digits that stand for the number, without leading zeros. */
  lemma {:induction false} DecimalReads(n: nat)
    ensures Digits(Decimal(n)) && NumberOf(Decimal(n)) == n && |Decimal(n)| >= 1
    ensures n > 0 ==> Decimal(n)[0] != '0'
    decreases n
  {
    var s := Decimal(n);
    if n >= 10 {
      DecimalReads(n / 10);
      assert s[..|s| - 1] == Decimal(n / 10);
    } else {
      assert s[..0] == "" && NumberOf("") == 0;
    }
  }

  /** The next id is "gui-" and the decimal number of the next tab. */
  lemma IdsAreNumbered(g: Runtime)
    ensures var (after, info) := CreateTab(g, Opened);
            && info.Some? && |info.value| > 4 && info.value[..4] == "gui-" && Digits(info.value[4..])
            && NumberOf(info.value[4..]) == g.nextTabId && after.nextTabId == g.nextTabId + 1
  {
    hide Digits;
    DecimalReads(g.nextTabId);
    assert TargetId(g.nextTabId)[4..] == Decimal(g.nextTabId);
  }
}
