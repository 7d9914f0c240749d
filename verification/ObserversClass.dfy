/** The controller's list of page observers, brought in line by the two loops of a refresh. */
module ObserversClass {
  import opened Wrappers
  import opened Observers

  class Instrumentation {
    var instrumentation: seq<Observer>
    var nextObserver: nat
    /** The page that the behavior simulator observes. */
    var simulated: Option<Target>
    /** The pages behind the addresses, which the program cannot see. */
    var live: map<nat, nat>
    var nextPage: nat

    ghost function Current(): State
      reads this
    {
      State(live, nextPage, instrumentation, nextObserver, simulated)
    }

    constructor ()
      ensures Current() == INITIAL
    {
      instrumentation, nextObserver, live, nextPage, simulated := [], 0, map[], 0, None;
    }

    method AlreadyObserved(address: nat) returns (found: bool)
      ensures found == Observed(instrumentation, address)
    {
      for i := 0 to |instrumentation|
        invariant forall j :: 0 <= j < i ==> instrumentation[j].address != Some(address)
      {
        if instrumentation[i].address == Some(address) {
          return true;
        }
      }
      return false;
    }

    method RemoveUnwanted(list: seq<nat>)
      modifies this`instrumentation
      ensures instrumentation == Keep(old(instrumentation), list)
    {
      var observers := instrumentation;
      var kept := [];
      for i := 0 to |observers|
        invariant kept == Keep(observers[..i], list)
      {
        assert observers[..i + 1][..i] == observers[..i];
        if observers[i].address.Some? && observers[i].address.value in list {
          kept := kept + [observers[i]];
        }
      }
      assert observers[..|observers|] == observers;
      instrumentation := kept;
    }

    method AppendMissing(list: seq<nat>)
      modifies this`instrumentation, this`nextObserver
      ensures Current() == Observers.AppendMissing(old(Current()), list)
    {
      for i := 0 to |list|
        invariant live == old(live) && nextPage == old(nextPage) && simulated == old(simulated)
        invariant Current() == Observers.AppendMissing(old(Current()), list[..i])
      {
        assert list[..i + 1][..i] == list[..i];
        var alreadyObserved := AlreadyObserved(list[i]);
        if !alreadyObserved {
          instrumentation := instrumentation +
            [Observer(nextObserver, Some(list[i]), if list[i] in live then live[list[i]] else 0)];
          nextObserver := nextObserver + 1;
        }
      }
      assert list[..|list|] == list;
    }

    method UpdateWebContents(active: Option<nat>)
      modifies this`simulated
      ensures simulated == Aim(Current(), active)
    {
      simulated := None;
      if active.Some? {
        simulated := Some(Target(active.value, if active.value in live then live[active.value] else 0));
      }
    }

    method RefreshSharedRuntimeBehavior(allWebContents: Option<seq<nat>>, active: Option<nat>)
      modifies this`instrumentation, this`nextObserver, this`simulated
      ensures Current() == Refresh(old(Current()), allWebContents, active)
    {
      if allWebContents.None? {
        instrumentation := [];
        UpdateWebContents(None);
        return;
      }
      RemoveUnwanted(allWebContents.value);
      AppendMissing(allWebContents.value);
      UpdateWebContents(active);
    }
  }
}
