/**
 Waiting for a navigation: browser events, a posted check and a timer race to answer one callback.
 Times are in milliseconds.
 */
module Navigation {
  datatype Url = Url(spec: string, valid: bool, isHttp: bool, host: string)

  const TIMEOUT := 15000

  datatype Status = Ok | NavigationFailed | TabNotFound | TimedOut

  /** What can happen to a waiter. `loading` and `current` are what the page says at that moment. */
  datatype Event =
    | DidFinishNavigation(inPrimaryMainFrame: bool, committed: bool, url: Url, errorPage: bool, loading: bool)
    | DidStopLoading(current: Url)
    | DidFailLoad(inPrimaryMainFrame: bool, url: Url)
    | WebContentsDestroyed
    | CheckCurrentState(current: Url, loading: bool)
    | OnTimeout
    | DeleteTask

  predicate IsRequestedNavigation(target: Url, url: Url) {
    url.valid && url.spec != "about:blank" &&
    (url.spec == target.spec || (target.isHttp && url.isHttp && url.host == target.host))
  }

  datatype Answer = Answer(status: Status, event: nat)

  /**
   `waiting` is whether the callback is still there; `answers` records each run of it, with the number
   of the event that ran it, and `handled` counts the events so far.
   */
  datatype Waiter = Waiter(
    target: Url,
    waiting: bool,
    seenRequestedNavigation: bool,
    observing: bool,
    timerRunning: bool,
    checkPosted: bool,
    deletesPosted: nat,
    deleted: bool,
    answers: seq<Answer>,
    handled: nat)

  function Created(target: Url): Waiter {
    Waiter(target, true, false, true, true, true, 0, false, [], 0)
  }

  function Complete(w: Waiter, status: Status): Waiter {
    if !w.waiting then w
    else w.(timerRunning := false, observing := false, waiting := false,
            answers := w.answers + [Answer(status, w.handled)], deletesPosted := w.deletesPosted + 1)
  }

  function OnFinish(w: Waiter, url: Url, errorPage: bool, loading: bool): Waiter {
    if !IsRequestedNavigation(w.target, url) then w
    else
      var w' := w.(seenRequestedNavigation := true);
      if errorPage then Complete(w', NavigationFailed)
      else if !w.observing || !loading then Complete(w', Ok)
      else w'
  }

  function OnStopLoading(w: Waiter, current: Url): Waiter {
    if w.seenRequestedNavigation then Complete(w, Ok)
    else if !w.observing || !IsRequestedNavigation(w.target, current) then w
    else Complete(w.(seenRequestedNavigation := true), Ok)
  }

  function OnCheck(w: Waiter, current: Url, loading: bool): Waiter {
    if !w.observing || !IsRequestedNavigation(w.target, current) then w
    else
      var w' := w.(seenRequestedNavigation := true);
      if loading then w' else Complete(w', Ok)
  }

  function Handle(w: Waiter, e: Event): Waiter
    requires Enabled(w, e)
  {
    match e
    case DidFinishNavigation(primary, committed, url, errorPage, loading) =>
      if !primary || !committed then w else OnFinish(w, url, errorPage, loading)
    case DidStopLoading(current) => OnStopLoading(w, current)
    case DidFailLoad(primary, url) =>
      if (w.observing && !primary) || !IsRequestedNavigation(w.target, url) then w
      else Complete(w, NavigationFailed)
    case WebContentsDestroyed => Complete(w, TabNotFound)
    case CheckCurrentState(current, loading) => OnCheck(w.(checkPosted := false), current, loading)
    case OnTimeout => Complete(w.(timerRunning := false), TimedOut)
    case DeleteTask => w.(deletesPosted := w.deletesPosted - 1, deleted := true)
  }

  /** Observer events reach any waiter that still exists; tasks and the timer only when due. */
  predicate Enabled(w: Waiter, e: Event) {
    && !w.deleted
    && (e.CheckCurrentState? ==> w.checkPosted)
    && (e.OnTimeout? ==> w.timerRunning)
    && (e.DeleteTask? ==> w.deletesPosted > 0)
  }

  function Step(w: Waiter, e: Event): Waiter
    requires Enabled(w, e)
  {
    Handle(w, e).(handled := w.handled + 1)
  }

  predicate Possible(w: Waiter, events: seq<Event>)
    decreases |events|
  {
    events == [] || (Enabled(w, events[0]) && Possible(Step(w, events[0]), events[1..]))
  }

  function After(w: Waiter, events: seq<Event>): Waiter
    requires Possible(w, events)
    decreases |events|
  {
    if events == [] then w else After(Step(w, events[0]), events[1..])
  }

  // ---------- What decides a waiter, judged from the events alone ----------

  /** The event shows the page at a requested URL. */
  predicate Shows(target: Url, e: Event) {
    match e
    case DidFinishNavigation(primary, committed, url, _, _) =>
      primary && committed && IsRequestedNavigation(target, url)
    case DidStopLoading(current) => IsRequestedNavigation(target, current)
    case CheckCurrentState(current, _) => IsRequestedNavigation(target, current)
    case _ => false
  }

  predicate ShownBefore(target: Url, events: seq<Event>, i: nat)
    requires i <= |events|
  {
    exists j :: 0 <= j < i && Shows(target, events[j])
  }

  /** Loading has stopped as of this event. */
  predicate Stopped(e: Event) {
    e.DidStopLoading? || ((e.DidFinishNavigation? || e.CheckCurrentState?) && !e.loading)
  }

  datatype Decision = Undecided | Decided(status: Status)

  /** What event i would answer, had nothing answered before. */
  function DecisionAt(target: Url, events: seq<Event>, i: nat): Decision
    requires i < |events|
  {
    match events[i]
    case WebContentsDestroyed => Decided(TabNotFound)
    case OnTimeout => Decided(TimedOut)
    case DidFailLoad(primary, url) =>
      if primary && IsRequestedNavigation(target, url) then Decided(NavigationFailed) else Undecided
    case DeleteTask => Undecided
    case DidStopLoading(_) =>
      if Shows(target, events[i]) || ShownBefore(target, events, i) then Decided(Ok) else Undecided
    case DidFinishNavigation(_, _, _, errorPage, loading) =>
      if !Shows(target, events[i]) then Undecided
      else if errorPage then Decided(NavigationFailed)
      else if loading then Undecided else Decided(Ok)
    case CheckCurrentState(_, loading) =>
      if Shows(target, events[i]) && !loading then Decided(Ok) else Undecided
  }

  /** The answers due: that of the first event that decides. */
  function FirstAnswer(target: Url, events: seq<Event>, n: nat): seq<Answer>
    requires n <= |events|
  {
    if n == 0 then []
    else
      var before := FirstAnswer(target, events, n - 1);
      if before != [] then before
      else match DecisionAt(target, events, n - 1)
        case Undecided => []
        case Decided(status) => [Answer(status, n - 1)]
  }

  // ---------- The invariant ----------

  /** The invariant without the answers. */
  predicate Sound(w: Waiter, shown: bool) {
    && (w.waiting <==> w.answers == [])
    && (w.waiting ==> w.observing && w.timerRunning)
    && (!w.waiting ==> !w.observing && !w.timerRunning)
    && (w.waiting ==> (w.seenRequestedNavigation <==> shown))
    && w.deletesPosted + (if w.deleted then 1 else 0) == |w.answers|
  }

  ghost predicate Inv(w: Waiter, events: seq<Event>) {
    && w.handled == |events|
    && w.answers == FirstAnswer(w.target, events, |events|)
    && Sound(w, ShownBefore(w.target, events, |events|))
  }

  lemma {:induction false} FirstAnswerExtends(target: Url, events: seq<Event>, e: Event, n: nat)
    requires n <= |events|
    ensures FirstAnswer(target, events + [e], n) == FirstAnswer(target, events, n)
  {
    if n > 0 {
      FirstAnswerExtends(target, events, e, n - 1);
      assert (events + [e])[n - 1] == events[n - 1];
      ShownExtends(target, events, e, n - 1);
    }
  }

  lemma ShownExtends(target: Url, events: seq<Event>, e: Event, i: nat)
    requires i <= |events|
    ensures ShownBefore(target, events + [e], i) == ShownBefore(target, events, i)
  {
    hide Shows;
    forall j: nat | j < i ensures (events + [e])[j] == events[j] {
    }
    if ShownBefore(target, events, i) {
      var j :| 0 <= j < i && Shows(target, events[j]);
      assert Shows(target, (events + [e])[j]);
    }
    if ShownBefore(target, events + [e], i) {
      var j :| 0 <= j < i && Shows(target, (events + [e])[j]);
      assert Shows(target, events[j]);
    }
  }

  lemma ShownSnoc(target: Url, events: seq<Event>, e: Event)
    ensures ShownBefore(target, events + [e], |events| + 1) <==>
            ShownBefore(target, events, |events|) || Shows(target, e)
  {
    hide Shows;
    ShownExtends(target, events, e, |events|);
    var all := events + [e];
    assert all[|events|] == e;
  }

  /** An event changes the answers as its decision says, and keeps the waiter's own account. */
  lemma StepAnswers(w: Waiter, events: seq<Event>, e: Event)
    requires Inv(w, events) && Enabled(w, e)
    ensures var after := Step(w, e);
            && after.target == w.target && after.handled == w.handled + 1
            && after.answers ==
               (if w.answers != [] then w.answers
                else match DecisionAt(w.target, events + [e], |events|)
                  case Undecided => []
                  case Decided(status) => [Answer(status, w.handled)])
  {
    hide IsRequestedNavigation, ShownBefore, FirstAnswer;
    ShownExtends(w.target, events, e, |events|);
    assert (events + [e])[|events|] == e;
  }

  lemma StepSound(w: Waiter, shown: bool, e: Event)
    requires Sound(w, shown) && Enabled(w, e)
    ensures Sound(Step(w, e), shown || Shows(w.target, e))
  {
    hide IsRequestedNavigation;
  }

  lemma StepKeeps(w: Waiter, events: seq<Event>, e: Event)
    requires Inv(w, events) && Enabled(w, e)
    ensures Inv(Step(w, e), events + [e])
  {
    hide IsRequestedNavigation, ShownBefore, Step, Enabled, DecisionAt, Shows;
    FirstAnswerExtends(w.target, events, e, |events|);
    ShownSnoc(w.target, events, e);
    StepAnswers(w, events, e);
    StepSound(w, ShownBefore(w.target, events, |events|), e);
  }

  lemma {:induction false} RunKeeps(w: Waiter, events: seq<Event>, more: seq<Event>)
    requires Inv(w, events) && Possible(w, more)
    ensures Inv(After(w, more), events + more)
    decreases |more|
  {
    hide Inv, Step, Enabled;
    if more == [] {
      assert events + more == events;
    } else {
      StepKeeps(w, events, more[0]);
      RunKeeps(Step(w, more[0]), events + [more[0]], more[1..]);
      assert events + [more[0]] + more[1..] == events + more;
    }
  }

  lemma CreatedInv(target: Url)
    ensures Inv(Created(target), [])
  {
  }

  /**
   In any run, the callback is run exactly for the first event that decides, with its status; at most
   one self-delete is posted, and only after the answer.
   */
  lemma AnswersFirstDecision(target: Url, events: seq<Event>)
    requires Possible(Created(target), events)
    ensures var w := After(Created(target), events);
            && w.target == target
            && w.answers == FirstAnswer(target, events, |events|)
            && |w.answers| <= 1
            && w.deletesPosted + (if w.deleted then 1 else 0) == |w.answers|
  {
    CreatedInv(target);
    RunKeeps(Created(target), [], events);
    assert [] + events == events;
    SameTarget(Created(target), events);
    FirstAnswerShape(target, events, |events|);
  }

  lemma {:induction false} SameTarget(w: Waiter, events: seq<Event>)
    requires Possible(w, events)
    ensures After(w, events).target == w.target
    decreases |events|
  {
    hide IsRequestedNavigation;
    if events != [] {
      SameTarget(Step(w, events[0]), events[1..]);
    }
  }

  lemma {:induction false} FirstAnswerShape(target: Url, events: seq<Event>, n: nat)
    requires n <= |events|
    ensures var a := FirstAnswer(target, events, n);
            && |a| <= 1
            && (a != [] ==> a[0].event < n && DecisionAt(target, events, a[0].event) == Decided(a[0].status))
  {
    hide DecisionAt;
    if n > 0 {
      FirstAnswerShape(target, events, n - 1);
    }
  }

  // ---------- Arrival, read off the events' own fields ----------

  /** A valid URL other than about:blank: the target itself, or an HTTP URL of an HTTP target's host. */
  predicate SamePlace(target: Url, url: Url) {
    && url.valid && url.spec != "about:blank"
    && (url.spec == target.spec || (url.isHttp && target.isHttp && url.host == target.host))
  }

  predicate Arrives(target: Url, e: Event) {
    || (e.DidFinishNavigation? && e.inPrimaryMainFrame && e.committed && SamePlace(target, e.url))
    || (e.DidStopLoading? && SamePlace(target, e.current))
    || (e.CheckCurrentState? && SamePlace(target, e.current))
  }

  lemma PlaceRequested(target: Url, url: Url)
    ensures SamePlace(target, url) == IsRequestedNavigation(target, url)
  {
  }

  lemma ArrivesShows(target: Url, e: Event)
    ensures Arrives(target, e) == Shows(target, e)
  {
  }

  /**
   Ok means that loading had stopped at that moment, and that by then an event had shown the page at the
   target, or at an HTTP URL of an HTTP target's host. Without such an event no answer is Ok.
   */
  lemma OkMeansArrived(target: Url, events: seq<Event>, k: nat)
    requires Possible(Created(target), events) && k < |After(Created(target), events).answers|
    requires After(Created(target), events).answers[k].status == Ok
    ensures var i := After(Created(target), events).answers[k].event;
            && i < |events| && Stopped(events[i])
            && (exists j :: 0 <= j <= i && Arrives(target, events[j]))
  {
    hide Possible, After, Arrives;
    AnswersFirstDecision(target, events);
    FirstAnswerShape(target, events, |events|);
    var i := After(Created(target), events).answers[k].event;
    if !Shows(target, events[i]) {
      assert ShownBefore(target, events, i);
    }
    var j :| 0 <= j <= i && Shows(target, events[j]);
    ArrivesShows(target, events[j]);
  }

  // ---------- What each event gives, read off its own fields ----------

  /** What event i gives for an answer, unless an earlier one gave one. */
  predicate Gives(target: Url, events: seq<Event>, i: int, status: Status)
    requires 0 <= i < |events|
  {
    var e := events[i];
    match status
    case Ok =>
      || (e.DidFinishNavigation? && Arrives(target, e) && !e.errorPage && !e.loading)
      || (e.CheckCurrentState? && Arrives(target, e) && !e.loading)
      || (e.DidStopLoading? && exists j :: 0 <= j <= i && Arrives(target, events[j]))
    case NavigationFailed =>
      || (e.DidFinishNavigation? && Arrives(target, e) && e.errorPage)
      || (e.DidFailLoad? && e.inPrimaryMainFrame && SamePlace(target, e.url))
    case TabNotFound => e.WebContentsDestroyed?
    case TimedOut => e.OnTimeout?
  }

  lemma GivesDecides(target: Url, events: seq<Event>, i: nat, status: Status)
    requires i < |events|
    ensures Gives(target, events, i, status) <==> DecisionAt(target, events, i) == Decided(status)
  {
    hide SamePlace, IsRequestedNavigation;
    forall j | 0 <= j <= i ensures Arrives(target, events[j]) == Shows(target, events[j]) {
      ArrivesShows(target, events[j]);
    }
    if events[i].DidFailLoad? {
      PlaceRequested(target, events[i].url);
    }
  }

  lemma {:induction false} FirstAnswerIsFirst(target: Url, events: seq<Event>, n: nat, i: nat, status: Status)
    requires n <= |events|
    ensures Answer(status, i) in FirstAnswer(target, events, n) <==>
            i < n && DecisionAt(target, events, i) == Decided(status) &&
            forall j :: 0 <= j < i ==> DecisionAt(target, events, j).Undecided?
    ensures FirstAnswer(target, events, n) == [] <==>
            forall j :: 0 <= j < n ==> DecisionAt(target, events, j).Undecided?
  {
    hide DecisionAt;
    if n > 0 {
      FirstAnswerIsFirst(target, events, n - 1, i, status);
      var before := FirstAnswer(target, events, n - 1);
      if before != [] {
        FirstAnswerIsFirst(target, events, n - 1, before[0].event, before[0].status);
      }
    }
  }

  /** In any run, the waiter answers exactly what the first event that gives an answer gives. */
  lemma {:induction false} AnswersWhatIsGiven(target: Url, events: seq<Event>, i: nat, status: Status)
    requires Possible(Created(target), events) && i < |events|
    ensures Answer(status, i) in After(Created(target), events).answers <==>
            Gives(target, events, i, status) &&
            forall j, other: Status :: 0 <= j < i ==> !Gives(target, events, j, other)
  {
    hide Gives, DecisionAt, Possible, After;
    AnswersFirstDecision(target, events);
    FirstAnswerIsFirst(target, events, |events|, i, status);
    forall j: nat, other: Status | j <= i
      ensures Gives(target, events, j, other) <==> DecisionAt(target, events, j) == Decided(other)
    {
      GivesDecides(target, events, j, other);
    }
    forall j | 0 <= j < i
      ensures DecisionAt(target, events, j).Undecided? <==> forall other: Status :: !Gives(target, events, j, other)
    {
      if DecisionAt(target, events, j).Decided? {
        assert Gives(target, events, j, DecisionAt(target, events, j).status);
      }
    }
  }

  // ---------- Time ----------

  lemma {:induction false} PossiblePrefix(w: Waiter, events: seq<Event>, n: nat)
    requires Possible(w, events) && n <= |events|
    ensures Possible(w, events[..n])
    decreases n
  {
    if n > 0 {
      PossiblePrefix(Step(w, events[0]), events[1..], n - 1);
      assert events[..n][1..] == events[1..][..n - 1];
    }
  }

  /** Event i happens at times[i]; a running timer fires before anything later than its deadline. */
  ghost predicate OnTime(target: Url, start: int, events: seq<Event>, times: seq<int>)
    requires Possible(Created(target), events)
  {
    && |times| == |events|
    && forall i :: 0 <= i < |events| ==>
         (PossiblePrefix(Created(target), events, i);
          After(Created(target), events[..i]).timerRunning ==> times[i] <= start + TIMEOUT)
  }

  lemma {:induction false} FirstAnswerOfPrefix(target: Url, events: seq<Event>, i: nat, n: nat)
    requires n <= i <= |events|
    ensures FirstAnswer(target, events[..i], n) == FirstAnswer(target, events, n)
  {
    if n > 0 {
      FirstAnswerOfPrefix(target, events, i, n - 1);
      assert events[..i][n - 1] == events[n - 1];
      assert forall j :: 0 <= j < n - 1 ==> events[..i][j] == events[j];
      assert ShownBefore(target, events[..i], n - 1) == ShownBefore(target, events, n - 1);
    }
  }

  lemma {:induction false} FirstAnswerKept(target: Url, events: seq<Event>, m: nat, n: nat)
    requires m <= n <= |events|
    ensures FirstAnswer(target, events, m) == [] || FirstAnswer(target, events, n) == FirstAnswer(target, events, m)
    ensures FirstAnswer(target, events, n) != [] && FirstAnswer(target, events, n)[0].event >= m ==>
              FirstAnswer(target, events, m) == []
  {
    FirstAnswerShape(target, events, m);
    if m < n {
      FirstAnswerKept(target, events, m, n - 1);
    }
  }

  /** When timers fire on time, the waiter has answered, by its deadline, before any later event. */
  lemma AnsweredInTime(target: Url, start: int, events: seq<Event>, times: seq<int>, i: nat)
    requires Possible(Created(target), events) && OnTime(target, start, events, times)
    requires i < |events| && times[i] > start + 15000
    ensures var answers := After(Created(target), events).answers;
            |answers| == 1 && answers[0].event < i && times[answers[0].event] <= start + 15000
  {
    PossiblePrefix(Created(target), events, i);
    StateAt(target, events, i);
    AnswersFirstDecision(target, events);
    FirstAnswerKept(target, events, i, |events|);
    FirstAnswerShape(target, events, i);
    var j := FirstAnswer(target, events, i)[0].event;
    PossiblePrefix(Created(target), events, j);
    StateAt(target, events, j);
    FirstAnswerKept(target, events, j, i);
  }

  /** Timers never fire early. */
  predicate NotEarly(start: int, events: seq<Event>, times: seq<int>) {
    |times| == |events| && forall i :: 0 <= i < |events| && events[i].OnTimeout? ==> times[i] >= start + TIMEOUT
  }

  lemma {:induction false} EnabledAt(w: Waiter, events: seq<Event>, i: nat)
    requires Possible(w, events) && i < |events|
    ensures Possible(w, events[..i]) && Enabled(After(w, events[..i]), events[i])
    decreases i
  {
    hide Enabled, Step;
    if i > 0 {
      EnabledAt(Step(w, events[0]), events[1..], i - 1);
      assert events[..i][1..] == events[1..][..i - 1];
    }
  }

  /** With timers neither early nor late, a waiter that times out does so 15 seconds after it was created. */
  lemma {:induction false} TimesOutExactly(target: Url, start: int, events: seq<Event>, times: seq<int>, k: nat)
    requires Possible(Created(target), events) && OnTime(target, start, events, times)
    requires NotEarly(start, events, times) && k < |After(Created(target), events).answers|
    requires After(Created(target), events).answers[k].status == TimedOut
    ensures var i := After(Created(target), events).answers[k].event;
            i < |times| && times[i] == start + 15000
  {
    hide Possible, After, DecisionAt;
    AnswersFirstDecision(target, events);
    FirstAnswerShape(target, events, |events|);
    var i := After(Created(target), events).answers[k].event;
    GivesDecides(target, events, i, TimedOut);
    EnabledAt(Created(target), events, i);
    PossiblePrefix(Created(target), events, i);
  }

  /** The timer runs exactly until the first decision. */
  lemma StateAt(target: Url, events: seq<Event>, i: nat)
    requires Possible(Created(target), events) && i <= |events|
    requires Possible(Created(target), events[..i])
    ensures After(Created(target), events[..i]).timerRunning <==> FirstAnswer(target, events, i) == []
  {
    CreatedInv(target);
    RunKeeps(Created(target), [], events[..i]);
    assert [] + events[..i] == events[..i];
    SameTarget(Created(target), events[..i]);
    FirstAnswerOfPrefix(target, events, i, i);
  }
}
