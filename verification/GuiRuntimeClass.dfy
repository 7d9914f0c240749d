/** The GUI runtime as the object the program keeps, proved to move as GuiTabs says. */
module GuiRuntimeClass {
  import opened Wrappers
  import opened GuiTabs

  class GuiRuntime {
    const shutdownOnZeroTabs: bool
    const hasQuit: bool
    var tabs: seq<Tab>
    var activeTargetId: string
    var nextTabId: nat
    var shutdownStarted: bool
    ghost var quits: nat
    ghost var posted: seq<Message>
    /** The ids of the windows opened so far: the next window is named by its length. */
    var made: seq<string>
    ghost var closed: seq<nat>

    ghost function State(): Runtime
      reads this
    {
      Runtime(shutdownOnZeroTabs, hasQuit, tabs, activeTargetId, nextTabId, shutdownStarted, quits, posted, made,
          closed)
    }

    constructor (shutdownOnZeroTabs: bool, hasQuit: bool)
      ensures State() == Fresh(shutdownOnZeroTabs, hasQuit)
    {
      this.shutdownOnZeroTabs, this.hasQuit := shutdownOnZeroTabs, hasQuit;
      tabs, activeTargetId, nextTabId, shutdownStarted := [], "", 1, false;
      quits, posted, made, closed := 0, [], [], [];
    }

    method Initialize(createInitialTab: bool, creation: Creation) returns (ok: bool)
      modifies this
      ensures State() == if createInitialTab then GuiTabs.CreateTab(old(State()), creation).0 else old(State())
      ensures ok == (!createInitialTab || creation.Opened?)
    {
      if !createInitialTab {
        return true;
      }
      var id := CreateTab(creation);
      return id.Some?;
    }

    /** The web contents or the window may fail to be created; an id is used up in between. */
    method CreateTab(creation: Creation) returns (info: Option<string>)
      modifies this
      ensures (State(), info) == GuiTabs.CreateTab(old(State()), creation)
    {
      if creation.NoContents? {
        return None;
      }
      var targetId := TargetId(nextTabId);
      nextTabId := nextTabId + 1;
      if creation.NoWindow? {
        return None;
      }
      tabs := tabs + [Tab(targetId, |made|, true)];
      made := made + [targetId];
      activeTargetId := targetId;
      return Some(targetId);
    }

    method FindTab(targetId: string) returns (k: nat)
      ensures k == Find(tabs, targetId)
    {
      k := 0;
      while k < |tabs| && tabs[k].id != targetId
        invariant k <= |tabs|
        invariant forall j :: 0 <= j < k ==> tabs[j].id != targetId
      {
        k := k + 1;
      }
    }

    method ChooseFallbackActiveTab()
      modifies this`activeTargetId
      ensures State() == GuiTabs.ChooseFallbackActiveTab(old(State()))
    {
      activeTargetId := if tabs == [] then "" else tabs[0].id;
    }

    method Shutdown()
      modifies this
      ensures State() == GuiTabs.Shutdown(old(State()))
    {
      if shutdownStarted {
        return;
      }
      shutdownStarted := true;
      closed := closed + Windows(tabs);
      tabs := [];
      activeTargetId := "";
      if hasQuit {
        quits := quits + 1;
      }
    }

    method Erase(k: nat)
      requires k < |tabs|
      modifies this`tabs, this`closed
      ensures tabs == Without(old(tabs), k) && closed == old(closed) + [old(tabs)[k].window]
    {
      closed := closed + [tabs[k].window];
      tabs := tabs[..k] + tabs[k + 1..];
    }

    method CloseTab(targetId: Option<string>) returns (found: bool)
      modifies this
      ensures (State(), found) == GuiTabs.CloseTab(old(State()), targetId)
    {
      var id := if targetId.Some? then targetId.value else activeTargetId;
      if id == "" {
        return false;
      }
      var k := FindTab(id);
      if k == |tabs| {
        return false;
      }
      var wasActive := activeTargetId == id;
      Erase(k);
      if wasActive {
        ChooseFallbackActiveTab();
      }
      if tabs == [] && shutdownOnZeroTabs {
        Shutdown();
      }
      return true;
    }

    /** The window at a position asks to be closed: its callback runs, once. */
    method OnWindowCloseRequested(k: nat)
      requires k < |tabs| && tabs[k].closeCallback
      modifies this`tabs, this`posted
      ensures State() == GuiTabs.OnWindowCloseRequested(old(State()), k)
    {
      posted := posted + [Message(tabs[k].id, tabs[k].window)];
      tabs := tabs[k := tabs[k].(closeCallback := false)];
    }

    method RemoveClosedWindow(targetId: string)
      modifies this
      ensures State() == GuiTabs.RemoveClosedWindow(old(State()), targetId)
    {
      var k := FindTab(targetId);
      if k == |tabs| {
        return;
      }
      var wasActive := activeTargetId == targetId;
      Erase(k);
      if wasActive {
        ChooseFallbackActiveTab();
      }
      if tabs == [] && shutdownOnZeroTabs {
        Shutdown();
      }
    }
  }
}
