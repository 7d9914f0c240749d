/** The navigation waiter as the object the program keeps, proved to move as Navigation says. */
module NavigationWaiterClass {
  import opened Navigation

  class NavigationWaiter {
    const targetUrl: Url
    var callback: bool
    var seenRequestedNavigation: bool
    /** Whether the waiter still observes its web contents: `web_contents()` is not null. */
    var observing: bool
    var timeoutTimerRunning: bool
    ghost var checkPosted: bool
    ghost var deletesPosted: nat
    ghost var deleted: bool
    ghost var answers: seq<Answer>
    ghost var handled: nat

    ghost function State(): Waiter
      reads this
    {
      Waiter(targetUrl, callback, seenRequestedNavigation, observing, timeoutTimerRunning, checkPosted,
             deletesPosted, deleted, answers, handled)
    }

    constructor (targetUrl: Url)
      ensures State() == Created(targetUrl)
    {
      this.targetUrl := targetUrl;
      callback, seenRequestedNavigation, observing, timeoutTimerRunning := true, false, true, true;
      checkPosted, deletesPosted, deleted, answers, handled := true, 0, false, [], 0;
    }

    method Complete(status: Status)
      modifies this
      ensures State() == Navigation.Complete(old(State()), status)
    {
      if !callback {
        return;
      }
      timeoutTimerRunning := false;
      observing := false;
      callback := false;
      answers := answers + [Answer(status, handled)];
      deletesPosted := deletesPosted + 1;
    }

    method DidFinishNavigation(inPrimaryMainFrame: bool, committed: bool, url: Url, errorPage: bool, loading: bool)
      requires !deleted
      modifies this
      ensures State() == Handle(old(State()),
                                Event.DidFinishNavigation(inPrimaryMainFrame, committed, url, errorPage, loading))
    {
      if !inPrimaryMainFrame || !committed {
        return;
      }
      if !IsRequestedNavigation(targetUrl, url) {
        return;
      }
      seenRequestedNavigation := true;
      if errorPage {
        Complete(NavigationFailed);
        return;
      }
      if !observing || !loading {
        Complete(Ok);
      }
    }

    method DidStopLoading(current: Url)
      requires !deleted
      modifies this
      ensures State() == Handle(old(State()), Event.DidStopLoading(current))
    {
      if !seenRequestedNavigation {
        if !observing || !IsRequestedNavigation(targetUrl, current) {
          return;
        }
        seenRequestedNavigation := true;
      }
      Complete(Ok);
    }

    method DidFailLoad(inPrimaryMainFrame: bool, url: Url)
      requires !deleted
      modifies this
      ensures State() == Handle(old(State()), Event.DidFailLoad(inPrimaryMainFrame, url))
    {
      if observing && !inPrimaryMainFrame {
        return;
      }
      if !IsRequestedNavigation(targetUrl, url) {
        return;
      }
      Complete(NavigationFailed);
    }

    method WebContentsDestroyed()
      requires !deleted
      modifies this
      ensures State() == Handle(old(State()), Event.WebContentsDestroyed)
    {
      Complete(TabNotFound);
    }

    method CheckCurrentState(current: Url, loading: bool)
      requires checkPosted && !deleted
      modifies this
      ensures State() == Handle(old(State()), Event.CheckCurrentState(current, loading))
    {
      checkPosted := false;
      if !observing || !IsRequestedNavigation(targetUrl, current) {
        return;
      }
      seenRequestedNavigation := true;
      if !loading {
        Complete(Ok);
      }
    }

    method OnTimeout()
      requires timeoutTimerRunning && !deleted
      modifies this
      ensures State() == Handle(old(State()), Event.OnTimeout)
    {
      timeoutTimerRunning := false;
      Complete(TimedOut);
    }

    /** One notification, timer or posted task, when it is this object's turn. */
    method Receive(e: Event)
      requires Enabled(State(), e)
      modifies this
      ensures State() == Step(old(State()), e)
    {
      hide IsRequestedNavigation, OnFinish, OnStopLoading, OnCheck, Navigation.Complete;
      ghost var before := handled;
      match e {
        case DidFinishNavigation(primary, committed, url, errorPage, loading) =>
          DidFinishNavigation(primary, committed, url, errorPage, loading);
        case DidStopLoading(current) => DidStopLoading(current);
        case DidFailLoad(primary, url) => DidFailLoad(primary, url);
        case WebContentsDestroyed => WebContentsDestroyed();
        case CheckCurrentState(current, loading) => CheckCurrentState(current, loading);
        case OnTimeout => OnTimeout();
        case DeleteTask =>
          deletesPosted := deletesPosted - 1;
          deleted := true;
      }
      handled := before + 1;
    }

    /** A whole life: AnswersFirstDecision says what it answers. */
    method ReceiveAll(events: seq<Event>)
      requires Possible(State(), events)
      modifies this
      ensures State() == After(old(State()), events)
    {
      hide Enabled, Step;
      for i := 0 to |events|
        invariant Possible(State(), events[i..])
        invariant After(State(), events[i..]) == After(old(State()), events)
      {
        assert events[i..][0] == events[i] && events[i..][1..] == events[i + 1..];
        Receive(events[i]);
      }
    }
  }
}
