/**
 Scrolling in wheel events of random size. Each step looks for the view, takes a chunk of what remains,
 sends a wheel event with it, and posts the next step after a random delay in milliseconds.
 */
module Scroll {
  import opened Wrappers


  /** The wheel moves against the content: its deltas are the negated steps. */
  datatype Wheel = Wheel(deltaX: int, deltaY: int)

  datatype Status = Ok | NoRenderView

  /** What a step finds: whether there is a view, and the two random numbers it draws. */
  datatype Tick = Tick(view: bool, chunk: nat, delay: nat)

  predicate Drawn(t: Tick) {
    t.chunk <= 40 && t.delay <= 18
  }

  datatype Scrolling = Scrolling(
    deltaX: int,
    deltaY: int,
    remaining: int,
    wheels: seq<Wheel>,
    elapsed: nat,
    answers: seq<Status>)

  function Abs(x: int): nat {
    if x < 0 then -x else x
  }

  function Max(x: int, y: int): int {
    if x < y then y else x
  }

  function Min(x: int, y: int): int {
    if x < y then x else y
  }

  function Total(deltaX: int, deltaY: int): nat {
    Max(Abs(deltaX), Abs(deltaY))
  }

  function Along(delta: int, chunk: int): int {
    if delta > 0 then chunk else if delta < 0 then -chunk else 0
  }

  /** What a step does: the distance it sends, or the answer it gives. */
  datatype Outcome = Sends(distance: int) | Answers(status: Status)

  function Decide(remaining: int, t: Tick): Outcome {
    if remaining <= 0 then Answers(Ok)
    else if !t.view then Answers(NoRenderView)
    else Sends(Min(remaining, 40 + t.chunk))
  }

  function ScrollStep(s: Scrolling, t: Tick): Scrolling {
    match Decide(s.remaining, t)
    case Answers(status) => s.(answers := s.answers + [status])
    case Sends(chunk) =>
      s.(remaining := s.remaining - chunk,
         wheels := s.wheels + [Wheel(-Along(s.deltaX, chunk), -Along(s.deltaY, chunk))],
         elapsed := s.elapsed + 12 + t.delay)
  }

  /** Nothing to scroll is answered at once; otherwise the first step runs straight away. */
  function Begin(deltaX: int, deltaY: int, t: Tick): Scrolling {
    var total := Total(deltaX, deltaY);
    if total == 0 then Scrolling(deltaX, deltaY, 0, [], 0, [Ok])
    else ScrollStep(Scrolling(deltaX, deltaY, total, [], 0, []), t)
  }

  predicate AllDrawn(ticks: seq<Tick>) {
    forall i :: 0 <= i < |ticks| ==> Drawn(ticks[i])
  }

  /** The steps that were posted; an answered scroll posts no more. */
  function Continue(s: Scrolling, ticks: seq<Tick>): Scrolling
    decreases |ticks|
  {
    if ticks == [] || s.answers != [] then s else Continue(ScrollStep(s, ticks[0]), ticks[1..])
  }

  function Run(deltaX: int, deltaY: int, ticks: seq<Tick>): Scrolling
    requires ticks != []
  {
    Continue(Begin(deltaX, deltaY, ticks[0]), ticks[1..])
  }

  // ---------- What the wheel events add up to ----------

  function MovedX(wheels: seq<Wheel>): int
    decreases |wheels|
  {
    if wheels == [] then 0 else MovedX(wheels[..|wheels| - 1]) - wheels[|wheels| - 1].deltaX
  }

  function MovedY(wheels: seq<Wheel>): int
    decreases |wheels|
  {
    if wheels == [] then 0 else MovedY(wheels[..|wheels| - 1]) - wheels[|wheels| - 1].deltaY
  }

  /** Before the answer: what was sent and what remains make the total, and all chunks but the last are full. */
  predicate Inv(s: Scrolling) {
    var total, n := Total(s.deltaX, s.deltaY), |s.wheels|;
    var sent := total - s.remaining;
    && 0 <= s.remaining <= total && sent <= 80 * n
    && (if s.remaining > 0 then sent >= 40 * n else n > 0 ==> sent > 40 * (n - 1))
    && MovedX(s.wheels) == Along(s.deltaX, sent) && MovedY(s.wheels) == Along(s.deltaY, sent)
    && 12 * n <= s.elapsed <= 30 * n
    && (s.answers == [] || s.answers == [if s.remaining > 0 then NoRenderView else Ok])
  }

  lemma StepKeeps(s: Scrolling, t: Tick)
    requires Inv(s) && Drawn(t) && s.answers == []
    ensures Inv(ScrollStep(s, t))
  {
    if s.remaining > 0 && t.view {
      var after := ScrollStep(s, t);
      var n := |s.wheels|;
      assert after.wheels[..n] == s.wheels;
    }
  }

  lemma {:induction false} ContinueKeeps(s: Scrolling, ticks: seq<Tick>)
    requires Inv(s) && AllDrawn(ticks)
    ensures Inv(Continue(s, ticks))
    ensures Continue(s, ticks).deltaX == s.deltaX && Continue(s, ticks).deltaY == s.deltaY
    decreases |ticks|
  {
    hide Inv;
    if ticks != [] && s.answers == [] {
      StepKeeps(s, ticks[0]);
      ContinueKeeps(ScrollStep(s, ticks[0]), ticks[1..]);
    }
  }

  lemma RunKeeps(deltaX: int, deltaY: int, ticks: seq<Tick>)
    requires ticks != [] && AllDrawn(ticks)
    ensures Inv(Run(deltaX, deltaY, ticks))
    ensures Run(deltaX, deltaY, ticks).deltaX == deltaX && Run(deltaX, deltaY, ticks).deltaY == deltaY
  {
    if Total(deltaX, deltaY) != 0 {
      StepKeeps(Scrolling(deltaX, deltaY, Total(deltaX, deltaY), [], 0, []), ticks[0]);
    }
    ContinueKeeps(Begin(deltaX, deltaY, ticks[0]), ticks[1..]);
  }

  // ---------- The theorems ----------

  function CeilingOf(x: nat, y: nat): nat
    requires y > 0
  {
    (x + y - 1) / y
  }

  /**
   Whatever is drawn, at every moment the distance sent and the distance remaining make the larger of
   the two requested distances, and each axis that was asked for has moved by the distance sent.
   */
  lemma DistanceConserved(deltaX: int, deltaY: int, ticks: seq<Tick>)
    requires ticks != [] && AllDrawn(ticks)
    ensures var s, total := Run(deltaX, deltaY, ticks), Total(deltaX, deltaY);
            && 0 <= s.remaining <= total && |s.answers| <= 1
            && MovedX(s.wheels) == Along(deltaX, total - s.remaining)
            && MovedY(s.wheels) == Along(deltaY, total - s.remaining)
  {
    RunKeeps(deltaX, deltaY, ticks);
  }

  /** On Ok every requested axis has moved the larger distance, in few enough and slow enough events. */
  lemma OkMovesTotal(deltaX: int, deltaY: int, ticks: seq<Tick>)
    requires ticks != [] && AllDrawn(ticks) && Run(deltaX, deltaY, ticks).answers == [Ok]
    ensures var s, total := Run(deltaX, deltaY, ticks), Total(deltaX, deltaY);
            && MovedX(s.wheels) == Along(deltaX, total) && MovedY(s.wheels) == Along(deltaY, total)
            && CeilingOf(total, 80) <= |s.wheels| <= CeilingOf(total, 40)
            && 12 * |s.wheels| <= s.elapsed <= 30 * |s.wheels|
  {
    RunKeeps(deltaX, deltaY, ticks);
  }

  /** So the scroll is exactly the one requested just when one axis is zero or both have the same size. */
  lemma ExactWhenOneAxisOrDiagonal(deltaX: int, deltaY: int, ticks: seq<Tick>)
    requires ticks != [] && AllDrawn(ticks) && Run(deltaX, deltaY, ticks).answers == [Ok]
    ensures var s := Run(deltaX, deltaY, ticks);
            MovedX(s.wheels) == deltaX && MovedY(s.wheels) == deltaY <==>
            deltaX == 0 || deltaY == 0 || Abs(deltaX) == Abs(deltaY)
  {
    OkMovesTotal(deltaX, deltaY, ticks);
  }

  /** A scroll is refused midway only for want of a view; it has then moved less than the total. */
  lemma NoViewStopsShort(deltaX: int, deltaY: int, ticks: seq<Tick>)
    requires ticks != [] && AllDrawn(ticks) && Run(deltaX, deltaY, ticks).answers == [NoRenderView]
    ensures var s, total := Run(deltaX, deltaY, ticks), Total(deltaX, deltaY);
            && s.remaining > 0 && |s.wheels| <= total / 40
            && MovedX(s.wheels) == Along(deltaX, total - s.remaining)
            && MovedY(s.wheels) == Along(deltaY, total - s.remaining)
  {
    RunKeeps(deltaX, deltaY, ticks);
  }

  predicate Seen(ticks: seq<Tick>) {
    forall i :: 0 <= i < |ticks| ==> ticks[i].view
  }

  lemma {:induction false} ContinueEnds(s: Scrolling, ticks: seq<Tick>)
    requires Inv(s) && AllDrawn(ticks) && Seen(ticks)
    requires s.answers == [] && |ticks| > CeilingOf(s.remaining, 40)
    ensures Continue(s, ticks).answers == [Ok]
    decreases |ticks|
  {
    hide MovedX, MovedY;
    var next := ScrollStep(s, ticks[0]);
    StepKeeps(s, ticks[0]);
    if s.remaining > 0 {
      ContinueEnds(next, ticks[1..]);
    } else {
      assert next.answers == [Ok];
    }
  }

  /** With a view all along, a scroll ends in Ok: after its last event one more step runs. */
  lemma ScrollEnds(deltaX: int, deltaY: int, ticks: seq<Tick>)
    requires AllDrawn(ticks) && Seen(ticks) && |ticks| > CeilingOf(Total(deltaX, deltaY), 40)
    ensures Run(deltaX, deltaY, ticks).answers == [Ok]
  {
    var total := Total(deltaX, deltaY);
    if total != 0 {
      ContinueEnds(Scrolling(deltaX, deltaY, total, [], 0, []), ticks);
    }
  }

  // ---------- Each event, from the random numbers drawn ----------

  /** The distance of the first n events together, and of event n: what is drawn, or what remains if that is less. */
  function Sent(total: nat, ticks: seq<Tick>, n: nat): (sent: nat)
    requires n <= |ticks|
    ensures sent <= total
    decreases n, 0
  {
    if n == 0 then 0 else Sent(total, ticks, n - 1) + Size(total, ticks, n - 1)
  }

  function Size(total: nat, ticks: seq<Tick>, n: nat): (size: nat)
    requires n < |ticks|
    ensures size <= total - Sent(total, ticks, n)
    decreases n, 1
  {
    var left := total - Sent(total, ticks, n);
    if 40 + ticks[n].chunk < left then 40 + ticks[n].chunk else left
  }

  /** The delays drawn with the first n events. */
  function Slept(ticks: seq<Tick>, n: nat): nat
    requires n <= |ticks|
  {
    if n == 0 then 0 else Slept(ticks, n - 1) + 12 + ticks[n - 1].delay
  }

  predicate Follows(s: Scrolling, ticks: seq<Tick>) {
    var total := Total(s.deltaX, s.deltaY);
    && |s.wheels| <= |ticks|
    && s.remaining == total - Sent(total, ticks, |s.wheels|) && s.elapsed == Slept(ticks, |s.wheels|)
    && forall i :: 0 <= i < |s.wheels| ==>
         && s.wheels[i].deltaX == Against(s.deltaX, Size(total, ticks, i))
         && s.wheels[i].deltaY == Against(s.deltaY, Size(total, ticks, i))
  }

  /** The wheel moves against the requested direction. */
  function Against(delta: int, size: int): int {
    if delta == 0 then 0 else if delta < 0 then size else -size
  }

  /** One step, with the size of its event. */
  lemma StepSends(s: Scrolling, t: Tick, size: nat)
    requires 0 <= s.remaining && size == if 40 + t.chunk < s.remaining then 40 + t.chunk else s.remaining
    ensures ScrollStep(s, t) ==
            if s.remaining == 0 then s.(answers := s.answers + [Ok])
            else if !t.view then s.(answers := s.answers + [NoRenderView])
            else s.(remaining := s.remaining - size, elapsed := s.elapsed + 12 + t.delay,
                    wheels := s.wheels + [Wheel(Against(s.deltaX, size), Against(s.deltaY, size))])
  {
  }

  lemma StepFollows(s: Scrolling, ticks: seq<Tick>)
    requires Follows(s, ticks) && s.answers == [] && |s.wheels| < |ticks|
    ensures var next := ScrollStep(s, ticks[|s.wheels|]);
            Follows(next, ticks) && |next.wheels| == |s.wheels| + (if next.answers == [] then 1 else 0)
  {
    hide Total, ScrollStep, Against, Sent, Size, Slept;
    var n, total := |s.wheels|, Total(s.deltaX, s.deltaY);
    OneMore(total, ticks, n);
    StepSends(s, ticks[n], Size(total, ticks, n));
  }

  lemma OneMore(total: nat, ticks: seq<Tick>, n: nat)
    requires n < |ticks|
    ensures var left := total - Sent(total, ticks, n);
            Size(total, ticks, n) == if 40 + ticks[n].chunk < left then 40 + ticks[n].chunk else left
    ensures Sent(total, ticks, n + 1) == Sent(total, ticks, n) + Size(total, ticks, n)
    ensures Slept(ticks, n + 1) == Slept(ticks, n) + 12 + ticks[n].delay
  {
  }

  lemma {:induction false} ContinueFollows(s: Scrolling, ticks: seq<Tick>)
    requires Follows(s, ticks) && s.answers == [] && |s.wheels| <= |ticks|
    ensures Follows(Continue(s, ticks[|s.wheels|..]), ticks)
    decreases |ticks| - |s.wheels|
  {
    hide Follows, ScrollStep;
    var n := |s.wheels|;
    if n < |ticks| {
      var next := ScrollStep(s, ticks[n]);
      StepFollows(s, ticks);
      assert ticks[n..][0] == ticks[n] && ticks[n..][1..] == ticks[n + 1..];
      if next.answers == [] {
        ContinueFollows(next, ticks);
      }
    }
  }

  /**
   The events are those drawn: event i moves both requested axes by 40 and the number drawn for it, or by
   what remains if that is less, and a pause of 12 ms and the number drawn follows it.
   */
  lemma EventsAreDrawn(deltaX: int, deltaY: int, ticks: seq<Tick>)
    requires ticks != []
    ensures var s, total := Run(deltaX, deltaY, ticks), Total(deltaX, deltaY);
            && |s.wheels| <= |ticks|
            && s.remaining == total - Sent(total, ticks, |s.wheels|) && s.elapsed == Slept(ticks, |s.wheels|)
            && forall i :: 0 <= i < |s.wheels| ==>
                 && s.wheels[i].deltaX == Against(deltaX, Size(total, ticks, i))
                 && s.wheels[i].deltaY == Against(deltaY, Size(total, ticks, i))
  {
    var start := Scrolling(deltaX, deltaY, Total(deltaX, deltaY), [], 0, []);
    SameDeltas(deltaX, deltaY, ticks);
    if Total(deltaX, deltaY) != 0 {
      assert Follows(start, ticks);
      hide Follows, ScrollStep;
      ContinueFollows(start, ticks);
      assert ticks[0..] == ticks && Run(deltaX, deltaY, ticks) == Continue(start, ticks);
    }
    assert Follows(Run(deltaX, deltaY, ticks), ticks);
  }

  lemma {:induction false} ContinueSame(s: Scrolling, ticks: seq<Tick>)
    ensures Continue(s, ticks).deltaX == s.deltaX && Continue(s, ticks).deltaY == s.deltaY
    decreases |ticks|
  {
    if ticks != [] && s.answers == [] {
      ContinueSame(ScrollStep(s, ticks[0]), ticks[1..]);
    }
  }

  lemma SameDeltas(deltaX: int, deltaY: int, ticks: seq<Tick>)
    requires ticks != []
    ensures Run(deltaX, deltaY, ticks).deltaX == deltaX && Run(deltaX, deltaY, ticks).deltaY == deltaY
  {
    ContinueSame(Begin(deltaX, deltaY, ticks[0]), ticks[1..]);
  }

  // ---------- As the program runs it ----------

  /** The state that the posted steps share; what they sent and answered is recorded beside it. */
  class ScrollState {
    const deltaX: int
    const deltaY: int
    var remaining: int
    ghost var wheels: seq<Wheel>
    ghost var elapsed: nat
    ghost var answers: seq<Status>

    ghost function State(): Scrolling
      reads this
    {
      Scrolling(deltaX, deltaY, remaining, wheels, elapsed, answers)
    }

    constructor (deltaX: int, deltaY: int, remaining: int)
      ensures State() == Scrolling(deltaX, deltaY, remaining, [], 0, [])
    {
      this.deltaX, this.deltaY, this.remaining := deltaX, deltaY, remaining;
      wheels, elapsed, answers := [], 0, [];
    }

    method ForwardWheelEvent(stepX: int, stepY: int)
      modifies this`wheels
      ensures wheels == old(wheels) + [Wheel(-stepX, -stepY)]
    {
      wheels := wheels + [Wheel(-stepX, -stepY)];
    }

    /** One step; another one is posted exactly when it gives no answer. */
    method StepOnce(t: Tick) returns (answer: Option<Status>)
      modifies this
      ensures State() == ScrollStep(old(State()), t)
      ensures answers == old(answers) + ToSeq(answer)
    {
      answer := None;
      if remaining <= 0 {
        answer := Some(Ok);
      } else if !t.view {
        answer := Some(NoRenderView);
      }
      if answer.Some? {
        answers := answers + [answer.value];
        return;
      }
      var stepX, stepY := 0, 0;
      var chunk := if remaining < 40 + t.chunk then remaining else 40 + t.chunk;
      if deltaY != 0 {
        stepY := if deltaY > 0 then chunk else -chunk;
      }
      if deltaX != 0 {
        stepX := if deltaX > 0 then chunk else -chunk;
      }
      remaining := remaining - chunk;
      ForwardWheelEvent(stepX, stepY);
      elapsed := elapsed + 12 + t.delay;
    }
  }

  /** Scroll, up to and including the first step, which runs before it returns. */
  method BeginScroll(deltaX: int, deltaY: int, t: Tick) returns (state: ScrollState?, answer: Option<Status>)
    ensures Begin(deltaX, deltaY, t).answers == ToSeq(answer)
    ensures state == null <==> Total(deltaX, deltaY) == 0
    ensures state == null ==> answer == Some(Ok) && Begin(deltaX, deltaY, t).wheels == []
    ensures state != null ==> fresh(state) && state.State() == Begin(deltaX, deltaY, t)
  {
    var magnitudeX := if deltaX < 0 then -deltaX else deltaX;
    var magnitudeY := if deltaY < 0 then -deltaY else deltaY;
    var total := if magnitudeX < magnitudeY then magnitudeY else magnitudeX;
    if total == 0 {
      return null, Some(Ok);
    }
    state := new ScrollState(deltaX, deltaY, total);
    answer := state.StepOnce(t);
  }
}
