/**
 The tabs of the GUI runtime: created and closed by the program, closed by the user through a posted
 message, and all closed by a shutdown.
 */
module GuiTabs {
  import opened Wrappers
  import opened Counting

  // ---------- Target ids ----------

  function Digit(n: nat): char
    requires n < 10
  {
    (n + '0' as int) as char
  }

  function Decimal(n: nat): string {
    if n < 10 then [Digit(n)] else Decimal(n / 10) + [Digit(n % 10)]
  }

  function TargetId(n: nat): string {
    "gui-" + Decimal(n)
  }

  lemma {:induction false} DecimalInjective(m: nat, n: nat)
    requires Decimal(m) == Decimal(n)
    ensures m == n
  {
    var s, t := Decimal(m), Decimal(n);
    DecimalNonempty(m / 10);
    DecimalNonempty(n / 10);
    assert s[|s| - 1] == Digit(m % 10) && t[|t| - 1] == Digit(n % 10);
    if m >= 10 && n >= 10 {
      assert s[..|s| - 1] == Decimal(m / 10) && t[..|t| - 1] == Decimal(n / 10);
      DecimalInjective(m / 10, n / 10);
    }
  }

  lemma DecimalNonempty(n: nat)
    ensures |Decimal(n)| >= 1
  {
  }

  lemma TargetIdInjective(m: nat, n: nat)
    requires TargetId(m) == TargetId(n)
    ensures m == n
  {
    assert TargetId(m)[4..] == Decimal(m) && TargetId(n)[4..] == Decimal(n);
    DecimalInjective(m, n);
  }

  // ---------- The state ----------

  /** A tab's window is known by its number; it asks to be closed at most once. */
  datatype Tab = Tab(id: string, window: nat, closeCallback: bool)

  /** A posted RemoveClosedWindow: the id it carries, and the window whose closing posted it. */
  datatype Message = Message(id: string, window: nat)

  /** `made` holds the id of every window ever opened, `closed` the windows closed, in order. */
  datatype Runtime = Runtime(
    shutdownOnZeroTabs: bool,
    hasQuit: bool,
    tabs: seq<Tab>,
    active: string,
    nextTabId: nat,
    shutdownStarted: bool,
    quits: nat,
    posted: seq<Message>,
    made: seq<string>,
    closed: seq<nat>)

  function Fresh(shutdownOnZeroTabs: bool, hasQuit: bool): Runtime {
    Runtime(shutdownOnZeroTabs, hasQuit, [], "", 1, false, 0, [], [], [])
  }

  // ---------- The operations ----------

  datatype Creation = NoContents | NoWindow | Opened

  function CreateTab(g: Runtime, creation: Creation): (Runtime, Option<string>) {
    match creation
    case NoContents => (g, None)
    case NoWindow => (g.(nextTabId := g.nextTabId + 1), None)
    case Opened =>
      var id := TargetId(g.nextTabId);
      (g.(nextTabId := g.nextTabId + 1, tabs := g.tabs + [Tab(id, |g.made|, true)], active := id,
          made := g.made + [id]),
       Some(id))
  }

  /** The position of the first tab with the id, or the number of tabs. */
  function Find(tabs: seq<Tab>, id: string): (k: nat)
    ensures k <= |tabs|
    ensures k < |tabs| ==> tabs[k].id == id
    ensures forall j :: 0 <= j < k ==> tabs[j].id != id
  {
    if tabs == [] || tabs[0].id == id then 0
    else
      var rest := Find(tabs[1..], id);
      assert forall j :: 1 <= j < rest + 1 ==> tabs[j] == tabs[1..][j - 1];
      rest + 1
  }

  function Without(tabs: seq<Tab>, k: nat): seq<Tab>
    requires k < |tabs|
  {
    tabs[..k] + tabs[k + 1..]
  }

  function Windows(tabs: seq<Tab>): (windows: seq<nat>)
    ensures |windows| == |tabs| && forall i :: 0 <= i < |tabs| ==> windows[i] == tabs[i].window
  {
    if tabs == [] then [] else [tabs[0].window] + Windows(tabs[1..])
  }

  function Shutdown(g: Runtime): Runtime {
    if g.shutdownStarted then g
    else g.(shutdownStarted := true, closed := g.closed + Windows(g.tabs), tabs := [], active := "",
            quits := g.quits + (if g.hasQuit then 1 else 0))
  }

  function ChooseFallbackActiveTab(g: Runtime): Runtime {
    g.(active := if g.tabs == [] then "" else g.tabs[0].id)
  }

  function RemoveTab(g: Runtime, k: nat): Runtime
    requires k < |g.tabs|
  {
    var erased := g.(tabs := Without(g.tabs, k), closed := g.closed + [g.tabs[k].window]);
    var chosen := if g.active == g.tabs[k].id then ChooseFallbackActiveTab(erased) else erased;
    if chosen.tabs == [] && g.shutdownOnZeroTabs then Shutdown(chosen) else chosen
  }

  function CloseTab(g: Runtime, target: Option<string>): (Runtime, bool) {
    var id := if target.Some? then target.value else g.active;
    var k := Find(g.tabs, id);
    if id == "" || k == |g.tabs| then (g, false) else (RemoveTab(g, k), true)
  }

  /** The user closes a window: its callback is used up and a message is posted. */
  function OnWindowCloseRequested(g: Runtime, k: nat): Runtime
    requires k < |g.tabs| && g.tabs[k].closeCallback
  {
    g.(tabs := g.tabs[k := g.tabs[k].(closeCallback := false)],
       posted := g.posted + [Message(g.tabs[k].id, g.tabs[k].window)])
  }

  function RemoveClosedWindow(g: Runtime, id: string): Runtime {
    var k := Find(g.tabs, id);
    if k == |g.tabs| then g else RemoveTab(g, k)
  }

  datatype Event =
    | Create(creation: Creation)
    | Close(target: Option<string>)
    | UserCloses(position: nat)
    | RunPosted
    | ShutDown

  predicate Enabled(g: Runtime, e: Event) {
    && (e.UserCloses? ==> e.position < |g.tabs| && g.tabs[e.position].closeCallback)
    && (e.RunPosted? ==> g.posted != [])
  }

  function Step(g: Runtime, e: Event): Runtime
    requires Enabled(g, e)
  {
    match e
    case Create(creation) => CreateTab(g, creation).0
    case Close(target) => CloseTab(g, target).0
    case UserCloses(k) => OnWindowCloseRequested(g, k)
    case RunPosted => RemoveClosedWindow(g.(posted := g.posted[1..]), g.posted[0].id)
    case ShutDown => Shutdown(g)
  }

  predicate Possible(g: Runtime, events: seq<Event>)
    decreases |events|
  {
    events == [] || (Enabled(g, events[0]) && Possible(Step(g, events[0]), events[1..]))
  }

  function After(g: Runtime, events: seq<Event>): Runtime
    requires Possible(g, events)
    decreases |events|
  {
    if events == [] then g else After(Step(g, events[0]), events[1..])
  }

  // ---------- The invariant ----------

  predicate Distinct<T(==)>(s: seq<T>) {
    forall i, j :: 0 <= i < j < |s| ==> s[i] != s[j]
  }

  predicate HasTab(tabs: seq<Tab>, id: string) {
    exists i :: 0 <= i < |tabs| && tabs[i].id == id
  }

  /** Nothing is active exactly when there are no tabs; otherwise the active id names a tab. */
  predicate ActiveNamesATab(g: Runtime) {
    if g.tabs == [] then g.active == "" else HasTab(g.tabs, g.active)
  }

  /** Every window got an id of its own, and the ids still to come are unused. */
  ghost predicate IdsAreFresh(g: Runtime) {
    && Distinct(g.made) && "" !in g.made
    && (forall n: nat :: n >= g.nextTabId ==> TargetId(n) !in g.made)
  }

  predicate TabsNameTheirWindows(g: Runtime) {
    && (forall i :: 0 <= i < |g.tabs| ==> g.tabs[i].window < |g.made| && g.tabs[i].id == g.made[g.tabs[i].window])
    && (forall i :: 0 <= i < |g.posted| ==>
          g.posted[i].window < |g.made| && g.posted[i].id == g.made[g.posted[i].window])
  }

  /** Every window is open or has been closed, and only once. */
  ghost predicate WindowsAccounted(g: Runtime) {
    multiset(Windows(g.tabs)) + multiset(g.closed) == multiset(Upto(|g.made|))
  }

  predicate QuitsOnce(g: Runtime) {
    g.quits == if g.shutdownStarted && g.hasQuit then 1 else 0
  }

  ghost predicate Inv(g: Runtime) {
    && ActiveNamesATab(g) && IdsAreFresh(g) && TabsNameTheirWindows(g) && WindowsAccounted(g) && QuitsOnce(g)
  }
}
