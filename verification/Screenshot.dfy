/**
 Taking a screenshot: the compositor's snapshot, an 8 second timer, and, once that has fired, a script
 in the page with its own 10 second timer, all race to answer one callback. The script runs in a second
 object, which outlives or dies before the first one. Times are in milliseconds.
 */
module Screenshot {
  import opened Wrappers

  const CAPTURE_TIMEOUT := 8000
  const EVALUATION_TIMEOUT := 10000

  type Byte = b: int | 0 <= b < 256
  type Bytes = seq<Byte>

  /** Base64 decoding. */
  type Decoder = string -> Option<Bytes>

  datatype Code = ScreenshotFailed | TimedOut | TabNotFound | NoActiveFrame | InternalError

  datatype Result<T> = Good(value: T) | Bad(code: Code, message: string)

  datatype Image = Empty | DrawsNothing | Unencodable | Encoded(png: Bytes)

  /** A script's value: undefined, a string, or anything else. */
  datatype Js = Undefined | Text(text: string) | Other

  /** What can happen. `rendered` is the JSON form of a value. */
  datatype Event =
    | Start(view: bool, widget: bool)
    | Snapshot(image: Image)
    | CaptureTimeout(frameLive: bool)
    | EvaluationResult(success: bool, value: Js, rendered: string)
    | EvaluationTimeout
    | DeleteCapture
    | DeleteEvaluation

  datatype Moment = Moment(at: nat, event: Event)

  datatype Answer = Answer(result: Result<Bytes>, event: nat, at: nat)

  /** The nested request: JavaScriptEvaluationRequest. A timer holds its deadline. */
  datatype Evaluation = Evaluation(
    callback: bool,
    timer: Option<nat>,
    resultPending: bool,
    runs: nat,
    deletesPosted: nat,
    deleted: bool)

  /**
   The outer request: ScreenshotCaptureRequest. `contents` says whether it was given web contents,
   `now` is the time of the event being handled, and `handled` counts the events before it.
   */
  datatype Capture = Capture(
    contents: bool,
    started: bool,
    startedAt: nat,
    callback: bool,
    timer: Option<nat>,
    snapshotPending: bool,
    evaluation: Option<Evaluation>,
    answers: seq<Answer>,
    deletesPosted: nat,
    deleted: bool,
    now: nat,
    handled: nat)

  function Created(contents: bool): Capture {
    Capture(contents, false, 0, true, None, false, None, [], 0, false, 0, 0)
  }

  // ---------- The operations ----------

  function Complete(c: Capture, result: Result<Bytes>): Capture {
    if !c.callback then c
    else c.(timer := None, callback := false,
            answers := c.answers + [Answer(result, c.handled, c.now)], deletesPosted := c.deletesPosted + 1)
  }

  function OnStart(c: Capture, view: bool, widget: bool): Capture {
    var s := c.(started := true, startedAt := c.now);
    if !view then Complete(s, Bad(ScreenshotFailed, "No render view available"))
    else if !widget then Complete(s, Bad(ScreenshotFailed, "No render widget available"))
    else s.(timer := Some(c.now + CAPTURE_TIMEOUT), snapshotPending := true)
  }

  function FromImage(image: Image): Result<Bytes> {
    match image
    case Empty => Bad(ScreenshotFailed, "Screenshot failed")
    case DrawsNothing => Bad(ScreenshotFailed, "Screenshot is empty")
    case Unencodable => Bad(ScreenshotFailed, "PNG encoding failed")
    case Encoded(png) => Good(png)
  }

  const PNG_DATA_URL_PREFIX := "data:image/png;base64,"

  function FromScript(result: Result<Js>, decode: Decoder): Result<Bytes> {
    match result
    case Bad(code, message) => Bad(code, message)
    case Good(Text(url)) =>
      if !(PNG_DATA_URL_PREFIX <= url) then
        Bad(ScreenshotFailed, "Screenshot fallback returned invalid data")
      else
        (match decode(url[|PNG_DATA_URL_PREFIX|..])
         case None => Bad(ScreenshotFailed, "Screenshot fallback PNG decode failed")
         case Some(bytes) =>
           if bytes == [] then Bad(ScreenshotFailed, "Screenshot fallback PNG decode failed") else Good(bytes))
    case Good(_) => Bad(ScreenshotFailed, "Screenshot fallback returned no data")
  }

  /** The callback is bound to a weak pointer: it does nothing once the capture has been deleted. */
  function OnDomFallback(c: Capture, result: Result<Js>, decode: Decoder): Capture {
    if c.deleted then c else Complete(c, FromScript(result, decode))
  }

  function CompleteEvaluation(c: Capture, result: Result<Js>, decode: Decoder): Capture
    requires c.evaluation.Some?
  {
    var e := c.evaluation.value;
    if !e.callback then c
    else
      var ran := OnDomFallback(c, result, decode);
      ran.(evaluation := Some(e.(timer := None, callback := false, runs := e.runs + 1,
                                 deletesPosted := e.deletesPosted + 1)))
  }

  /** The nested request is started; its timer runs only for a positive timeout. */
  function StartEvaluation(c: Capture, frameLive: bool, timeout: int, decode: Decoder): Capture {
    var created := Evaluation(true, None, false, 0, 0, false);
    if !c.contents then
      CompleteEvaluation(c.(evaluation := Some(created)), Bad(TabNotFound, "Tab not found"), decode)
    else if !frameLive then
      CompleteEvaluation(c.(evaluation := Some(created)), Bad(NoActiveFrame, "No active frame"), decode)
    else
      c.(evaluation := Some(created.(timer := if timeout > 0 then Some(c.now + timeout) else None,
                                     resultPending := true)))
  }

  function StartDomFallback(c: Capture, frameLive: bool, decode: Decoder): Capture {
    if !c.contents then Complete(c, Bad(TimedOut, "Screenshot timed out"))
    else StartEvaluation(c, frameLive, EVALUATION_TIMEOUT, decode)
  }

  function ScriptResult(success: bool, value: Js, rendered: string): Result<Js> {
    if success then Good(value)
    else Bad(InternalError, if value.Text? then value.text else rendered)
  }

  const EVALUATION_TIMED_OUT: Result<Js> := Bad(TimedOut, "JavaScript evaluation timeout")

  /** Timers never fire early; a result, a timer or a deletion arrives only when one is due. */
  predicate Enabled(c: Capture, m: Moment) {
    m.at >= c.now &&
    match m.event
    case Start(_, _) => !c.started
    case Snapshot(_) => c.snapshotPending
    case CaptureTimeout(_) => c.timer.Some? && m.at >= c.timer.value
    case EvaluationResult(_, _, _) => c.evaluation.Some? && c.evaluation.value.resultPending
    case EvaluationTimeout =>
      c.evaluation.Some? && c.evaluation.value.timer.Some? && m.at >= c.evaluation.value.timer.value
    case DeleteCapture => c.deletesPosted > 0
    case DeleteEvaluation => c.evaluation.Some? && c.evaluation.value.deletesPosted > 0
  }

  function Handle(c: Capture, m: Moment, decode: Decoder): Capture
    requires Enabled(c, m)
  {
    match m.event
    case Start(view, widget) => OnStart(c, view, widget)
    case Snapshot(image) =>
      var s := c.(snapshotPending := false);
      if s.deleted then s else Complete(s, FromImage(image))
    case CaptureTimeout(frameLive) => StartDomFallback(c.(timer := None), frameLive, decode)
    case EvaluationResult(success, value, rendered) =>
      var s := c.(evaluation := Some(c.evaluation.value.(resultPending := false)));
      if s.evaluation.value.deleted then s
      else CompleteEvaluation(s, ScriptResult(success, value, rendered), decode)
    case EvaluationTimeout =>
      CompleteEvaluation(c.(evaluation := Some(c.evaluation.value.(timer := None))), EVALUATION_TIMED_OUT, decode)
    case DeleteCapture => c.(deletesPosted := c.deletesPosted - 1, deleted := true)
    case DeleteEvaluation =>
      c.(evaluation := Some(c.evaluation.value.(deletesPosted := c.evaluation.value.deletesPosted - 1,
                                                deleted := true)))
  }

  function Step(c: Capture, m: Moment, decode: Decoder): Capture
    requires Enabled(c, m)
  {
    var after := Handle(c.(now := m.at), m, decode);
    after.(handled := c.handled + 1)
  }

  predicate Possible(c: Capture, moments: seq<Moment>, decode: Decoder)
    decreases |moments|
  {
    moments == [] ||
    (Enabled(c, moments[0]) && Possible(Step(c, moments[0], decode), moments[1..], decode))
  }

  function After(c: Capture, moments: seq<Moment>, decode: Decoder): Capture
    requires Possible(c, moments, decode)
    decreases |moments|
  {
    if moments == [] then c else After(Step(c, moments[0], decode), moments[1..], decode)
  }

  // ---------- The answer, judged from the events alone ----------

  /** What an event would answer, had nothing answered before it. */
  function Decision(contents: bool, e: Event, decode: Decoder): Option<Result<Bytes>> {
    match e
    case Start(view, widget) =>
      if !view then Some(Bad(ScreenshotFailed, "No render view available"))
      else if !widget then Some(Bad(ScreenshotFailed, "No render widget available"))
      else None
    case Snapshot(image) => Some(FromImage(image))
    case CaptureTimeout(frameLive) =>
      if !contents then Some(Bad(TimedOut, "Screenshot timed out"))
      else if !frameLive then Some(Bad(NoActiveFrame, "No active frame"))
      else None
    case EvaluationResult(success, value, rendered) =>
      Some(FromScript(ScriptResult(success, value, rendered), decode))
    case EvaluationTimeout => Some(Bad(TimedOut, "JavaScript evaluation timeout"))
    case DeleteCapture => None
    case DeleteEvaluation => None
  }

  /** The answers due: that of the first event that decides. */
  function FirstAnswer(contents: bool, moments: seq<Moment>, decode: Decoder): seq<Answer>
    decreases |moments|
  {
    if moments == [] then []
    else
      var n := |moments| - 1;
      var before := FirstAnswer(contents, moments[..n], decode);
      if before != [] then before
      else match Decision(contents, moments[n].event, decode)
        case None => []
        case Some(result) => [Answer(result, n, moments[n].at)]
  }

  // ---------- The invariant ----------

  predicate EvaluationInv(e: Evaluation) {
    && (e.callback <==> e.timer.Some?)
    && e.runs == (if e.callback then 0 else 1)
    && e.deletesPosted + (if e.deleted then 1 else 0) == e.runs
  }

  predicate Sound(c: Capture) {
    && |c.answers| == (if c.callback then 0 else 1)
    && c.deletesPosted + (if c.deleted then 1 else 0) == |c.answers|
    && (c.evaluation.Some? ==> EvaluationInv(c.evaluation.value))
    && (!c.started ==> c.callback && c.timer.None? && c.evaluation.None? && !c.snapshotPending)
    && (c.timer.Some? ==> c.callback && c.evaluation.None?)
    && (c.started && c.callback && c.timer.None? ==> c.evaluation.Some? && c.evaluation.value.callback)
  }

  ghost predicate Inv(c: Capture, moments: seq<Moment>, decode: Decoder) {
    && Sound(c)
    && c.handled == |moments|
    && c.answers == FirstAnswer(c.contents, moments, decode)
  }

  lemma CreatedInv(contents: bool, decode: Decoder)
    ensures Inv(Created(contents), [], decode)
  {
  }

  lemma FirstAnswerSnoc(contents: bool, moments: seq<Moment>, m: Moment, decode: Decoder)
    ensures FirstAnswer(contents, moments + [m], decode) ==
            (if FirstAnswer(contents, moments, decode) != [] then FirstAnswer(contents, moments, decode)
             else match Decision(contents, m.event, decode)
               case None => []
               case Some(result) => [Answer(result, |moments|, m.at)])
  {
    assert (moments + [m])[..|moments|] == moments;
  }

  lemma FailurePasses(code: Code, message: string, decode: Decoder)
    ensures FromScript(Bad(code, message), decode) == Bad(code, message)
  {
  }

  lemma EvaluationSound(c: Capture, result: Result<Js>, decode: Decoder)
    requires c.started && c.timer.None? && |c.answers| == (if c.callback then 0 else 1)
    requires c.deletesPosted + (if c.deleted then 1 else 0) == |c.answers|
    requires c.evaluation.Some? && (c.callback ==> c.evaluation.value.callback)
    requires var e := c.evaluation.value;
             && e.runs == (if e.callback then 0 else 1) && (e.timer.Some? ==> e.callback)
             && e.deletesPosted + (if e.deleted then 1 else 0) == e.runs
    ensures Sound(CompleteEvaluation(c, result, decode))
  {
    hide FromScript;
  }

  lemma TimeoutSound(c: Capture, at: nat, frameLive: bool, decode: Decoder)
    requires Sound(c) && Enabled(c, Moment(at, CaptureTimeout(frameLive)))
    ensures Sound(Step(c, Moment(at, CaptureTimeout(frameLive)), decode))
  {
    hide FromScript, CompleteEvaluation;
    if c.contents && !frameLive {
      var created := Evaluation(true, None, false, 0, 0, false);
      EvaluationSound(c.(now := at, timer := None, evaluation := Some(created)),
                      Bad(NoActiveFrame, "No active frame"), decode);
    }
  }

  lemma OuterSound(c: Capture, m: Moment, decode: Decoder)
    requires Sound(c) && Enabled(c, m)
    requires m.event.Start? || m.event.Snapshot? || m.event.DeleteCapture? || m.event.DeleteEvaluation?
    ensures Sound(Step(c, m, decode))
  {
    hide FromImage;
  }

  lemma StepSound(c: Capture, m: Moment, decode: Decoder)
    requires Sound(c) && Enabled(c, m)
    ensures Sound(Step(c, m, decode))
  {
    hide FromScript, FromImage, ScriptResult, CompleteEvaluation, OnStart, Complete, StartDomFallback;
    match m.event {
      case CaptureTimeout(frameLive) => TimeoutSound(c, m.at, frameLive, decode);
      case EvaluationResult(success, value, rendered) =>
        var e := c.evaluation.value.(resultPending := false);
        EvaluationSound(c.(now := m.at, evaluation := Some(e)), ScriptResult(success, value, rendered), decode);
      case EvaluationTimeout =>
        EvaluationSound(c.(now := m.at, evaluation := Some(c.evaluation.value.(timer := None))),
                        EVALUATION_TIMED_OUT, decode);
      case _ => OuterSound(c, m, decode);
    }
  }

  lemma EvaluationEffect(c: Capture, result: Result<Js>, decode: Decoder)
    requires c.evaluation.Some?
    ensures var after := CompleteEvaluation(c, result, decode);
            && after.contents == c.contents && after.handled == c.handled
            && after.started == c.started && after.startedAt == c.startedAt
            && after.timer in {None, c.timer}
            && after.evaluation.Some? && after.evaluation.value.timer in {None, c.evaluation.value.timer}
            && after.answers ==
               (if !c.evaluation.value.callback || c.deleted || !c.callback then c.answers
                else c.answers + [Answer(FromScript(result, decode), c.handled, c.now)])
  {
    hide FromScript;
  }

  lemma StepAnswers(c: Capture, m: Moment, decode: Decoder)
    requires Sound(c) && Enabled(c, m)
    ensures var after := Step(c, m, decode);
            && after.contents == c.contents && after.handled == c.handled + 1
            && after.answers ==
               (if c.answers != [] then c.answers
                else match Decision(c.contents, m.event, decode)
                  case None => []
                  case Some(result) => [Answer(result, c.handled, m.at)])
  {
    hide FromImage, FromScript, ScriptResult, CompleteEvaluation;
    FailurePasses(NoActiveFrame, "No active frame", decode);
    FailurePasses(TimedOut, "JavaScript evaluation timeout", decode);
    match m.event {
      case CaptureTimeout(frameLive) =>
        if c.contents && !frameLive {
          var created := Evaluation(true, None, false, 0, 0, false);
          EvaluationEffect(c.(now := m.at, timer := None, evaluation := Some(created)),
                           Bad(NoActiveFrame, "No active frame"), decode);
        }
      case EvaluationResult(success, value, rendered) =>
        var e := c.evaluation.value.(resultPending := false);
        EvaluationEffect(c.(now := m.at, evaluation := Some(e)), ScriptResult(success, value, rendered), decode);
      case EvaluationTimeout =>
        EvaluationEffect(c.(now := m.at, evaluation := Some(c.evaluation.value.(timer := None))),
                         EVALUATION_TIMED_OUT, decode);
      case _ =>
    }
  }

  lemma StepKeeps(c: Capture, moments: seq<Moment>, m: Moment, decode: Decoder)
    requires Inv(c, moments, decode) && Enabled(c, m)
    ensures Inv(Step(c, m, decode), moments + [m], decode) && Step(c, m, decode).contents == c.contents
  {
    hide Sound, Enabled, Step, FirstAnswer, Decision;
    StepSound(c, m, decode);
    StepAnswers(c, m, decode);
    FirstAnswerSnoc(c.contents, moments, m, decode);
  }

  lemma {:induction false} RunKeeps(c: Capture, moments: seq<Moment>, more: seq<Moment>, decode: Decoder)
    requires Inv(c, moments, decode) && Possible(c, more, decode)
    ensures Inv(After(c, more, decode), moments + more, decode)
    ensures After(c, more, decode).contents == c.contents
    decreases |more|
  {
    hide Sound, Enabled, Step, FirstAnswer;
    if more == [] {
      assert moments + more == moments;
    } else {
      StepKeeps(c, moments, more[0], decode);
      RunKeeps(Step(c, more[0], decode), moments + [more[0]], more[1..], decode);
      assert moments + [more[0]] + more[1..] == moments + more;
    }
  }

  // ---------- The theorems ----------

  /**
   Over any order of the events the callback is run exactly for the first event that decides, with its
   result: late snapshots, script results and timers change nothing. Each of the two objects posts its
   deletion exactly once, when it has answered and not before.
   */
  lemma AnswersFirstDecision(contents: bool, moments: seq<Moment>, decode: Decoder)
    requires Possible(Created(contents), moments, decode)
    ensures var c := After(Created(contents), moments, decode);
            && c.answers == FirstAnswer(contents, moments, decode)
            && |c.answers| <= 1
            && c.deletesPosted + (if c.deleted then 1 else 0) == |c.answers|
            && (c.evaluation.Some? ==>
                  var e := c.evaluation.value;
                  e.runs <= 1 && e.deletesPosted + (if e.deleted then 1 else 0) == e.runs)
  {
    CreatedInv(contents, decode);
    RunKeeps(Created(contents), [], moments, decode);
    assert [] + moments == moments;
    FirstAnswerShape(contents, moments, decode);
  }

  lemma {:induction false} FirstAnswerShape(contents: bool, moments: seq<Moment>, decode: Decoder)
    ensures var a := FirstAnswer(contents, moments, decode);
            && |a| <= 1
            && (a != [] ==> a[0].event < |moments| && moments[a[0].event].at == a[0].at
                            && Decision(contents, moments[a[0].event].event, decode) == Some(a[0].result))
    decreases |moments|
  {
    hide Decision;
    if moments != [] {
      FirstAnswerShape(contents, moments[..|moments| - 1], decode);
    }
  }

  /** What an event gives for an answer, unless an earlier one gave one. */
  predicate Gives(contents: bool, e: Event, decode: Decoder, result: Result<Bytes>) {
    match e
    case Start(view, widget) =>
      (!view || !widget) &&
      result == Bad(ScreenshotFailed, if !view then "No render view available" else "No render widget available")
    case Snapshot(Encoded(png)) => result == Good(png)
    case Snapshot(Empty) => result == Bad(ScreenshotFailed, "Screenshot failed")
    case Snapshot(DrawsNothing) => result == Bad(ScreenshotFailed, "Screenshot is empty")
    case Snapshot(Unencodable) => result == Bad(ScreenshotFailed, "PNG encoding failed")
    case CaptureTimeout(frameLive) =>
      (!contents || !frameLive) &&
      result == if !contents then Bad(TimedOut, "Screenshot timed out") else Bad(NoActiveFrame, "No active frame")
    case EvaluationResult(success, value, rendered) =>
      if !success then result == Bad(InternalError, if value.Text? then value.text else rendered)
      else if !value.Text? then result == Bad(ScreenshotFailed, "Screenshot fallback returned no data")
      else if |value.text| < 22 || value.text[..22] != "data:image/png;base64," then
        result == Bad(ScreenshotFailed, "Screenshot fallback returned invalid data")
      else
        var bytes := decode(value.text[22..]);
        if bytes.None? || bytes.value == [] then
          result == Bad(ScreenshotFailed, "Screenshot fallback PNG decode failed")
        else result == Good(bytes.value)
    case EvaluationTimeout => result == Bad(TimedOut, "JavaScript evaluation timeout")
    case DeleteCapture => false
    case DeleteEvaluation => false
  }

  lemma PrefixOfDataUrl()
    ensures |PNG_DATA_URL_PREFIX| == 22 && PNG_DATA_URL_PREFIX == "data:image/png;base64,"
  {
  }

  lemma GivesDecides(contents: bool, e: Event, decode: Decoder, result: Result<Bytes>)
    ensures Gives(contents, e, decode, result) <==> Decision(contents, e, decode) == Some(result)
  {
    PrefixOfDataUrl();
  }

  lemma {:induction false} FirstAnswerIsFirst(contents: bool, moments: seq<Moment>, decode: Decoder, i: nat,
                                              result: Result<Bytes>)
    requires i < |moments|
    ensures Answer(result, i, moments[i].at) in FirstAnswer(contents, moments, decode) <==>
            Decision(contents, moments[i].event, decode) == Some(result) &&
            forall j :: 0 <= j < i ==> Decision(contents, moments[j].event, decode).None?
    decreases |moments|
  {
    hide Decision;
    var n := |moments| - 1;
    var before := FirstAnswer(contents, moments[..n], decode);
    FirstAnswerShape(contents, moments[..n], decode);
    NoneDecides(contents, moments[..n], decode);
    if i < n {
      FirstAnswerIsFirst(contents, moments[..n], decode, i, result);
    } else if before != [] {
      assert before[0].event < n;
    }
  }

  lemma {:induction false} NoneDecides(contents: bool, moments: seq<Moment>, decode: Decoder)
    ensures FirstAnswer(contents, moments, decode) == [] <==>
            forall j :: 0 <= j < |moments| ==> Decision(contents, moments[j].event, decode).None?
    decreases |moments|
  {
    hide Decision;
    if moments != [] {
      NoneDecides(contents, moments[..|moments| - 1], decode);
    }
  }

  /** In any run, the capture answers exactly what the first event that gives an answer gives, at that moment. */
  lemma {:induction false} AnswersWhatIsGiven(contents: bool, moments: seq<Moment>, decode: Decoder, i: nat,
                                              result: Result<Bytes>)
    requires Possible(Created(contents), moments, decode) && i < |moments|
    ensures Answer(result, i, moments[i].at) in After(Created(contents), moments, decode).answers <==>
            Gives(contents, moments[i].event, decode, result) &&
            forall j, other :: 0 <= j < i ==> !Gives(contents, moments[j].event, decode, other)
  {
    hide Gives, Decision, Possible, After;
    AnswersFirstDecision(contents, moments, decode);
    FirstAnswerIsFirst(contents, moments, decode, i, result);
    GivesDecides(contents, moments[i].event, decode, result);
    forall j: nat | j < i
      ensures Decision(contents, moments[j].event, decode).None? <==>
              forall other :: !Gives(contents, moments[j].event, decode, other)
    {
      forall other ensures Gives(contents, moments[j].event, decode, other) <==>
                           Decision(contents, moments[j].event, decode) == Some(other)
      {
        GivesDecides(contents, moments[j].event, decode, other);
      }
      if Decision(contents, moments[j].event, decode).Some? {
        assert Gives(contents, moments[j].event, decode, Decision(contents, moments[j].event, decode).value);
      }
    }
  }

  /** Nothing is left running or allocated: no timer, and no deletion still to come. */
  predicate Settled(c: Capture) {
    && c.timer.None? && c.deletesPosted == 0
    && (c.evaluation.Some? ==> c.evaluation.value.timer.None? && c.evaluation.value.deletesPosted == 0)
  }

  /** A started capture that has nothing left to wait for has answered once, and both objects are gone. */
  lemma SettledMeansAnsweredAndDeleted(contents: bool, moments: seq<Moment>, decode: Decoder)
    requires Possible(Created(contents), moments, decode)
    requires After(Created(contents), moments, decode).started && Settled(After(Created(contents), moments, decode))
    ensures var c := After(Created(contents), moments, decode);
            && |c.answers| == 1 && c.deleted
            && (c.evaluation.Some? ==> c.evaluation.value.runs == 1 && c.evaluation.value.deleted)
  {
    CreatedInv(contents, decode);
    RunKeeps(Created(contents), [], moments, decode);
    AnswersFirstDecision(contents, moments, decode);
  }

  // ---------- Time ----------

  /** A running timer fires before anything later than its deadline happens. */
  predicate Punctual(c: Capture, m: Moment) {
    && (c.timer.Some? ==> m.at <= c.timer.value)
    && (c.evaluation.Some? && c.evaluation.value.timer.Some? ==> m.at <= c.evaluation.value.timer.value)
  }

  predicate OnTime(c: Capture, moments: seq<Moment>, decode: Decoder)
    requires Possible(c, moments, decode)
    decreases |moments|
  {
    moments == [] ||
    (Punctual(c, moments[0]) && OnTime(Step(c, moments[0], decode), moments[1..], decode))
  }

  /** The deadlines in force: 8 seconds after the start, and 10 seconds after that. */
  predicate TimersInTime(c: Capture) {
    && (c.timer.Some? ==> c.timer.value == c.startedAt + CAPTURE_TIMEOUT)
    && (c.evaluation.Some? && c.evaluation.value.timer.Some? ==>
          c.evaluation.value.timer.value == c.startedAt + CAPTURE_TIMEOUT + EVALUATION_TIMEOUT)
  }

  /** Every deadline in force, and every answer given, is within the two timeouts together. */
  predicate InTime(c: Capture) {
    var latest := c.startedAt + CAPTURE_TIMEOUT + EVALUATION_TIMEOUT;
    && TimersInTime(c)
    && (forall i :: 0 <= i < |c.answers| ==> c.answers[i].at <= latest && c.answers[i].event < c.handled)
  }

  lemma TimeoutTimers(c: Capture, at: nat, frameLive: bool, decode: Decoder)
    requires Sound(c) && Enabled(c, Moment(at, CaptureTimeout(frameLive))) && TimersInTime(c)
    requires at <= c.timer.value
    ensures var after := Step(c, Moment(at, CaptureTimeout(frameLive)), decode);
            TimersInTime(after) && after.started == c.started && after.startedAt == c.startedAt
  {
    hide FromScript, CompleteEvaluation;
    if c.contents && !frameLive {
      var created := Evaluation(true, None, false, 0, 0, false);
      EvaluationEffect(c.(now := at, timer := None, evaluation := Some(created)),
                       Bad(NoActiveFrame, "No active frame"), decode);
    }
  }

  lemma StepTimers(c: Capture, m: Moment, decode: Decoder)
    requires Sound(c) && Enabled(c, m) && Punctual(c, m) && TimersInTime(c)
    ensures var after := Step(c, m, decode);
            && TimersInTime(after) && (c.started || m.event.Start?) && after.started
            && after.startedAt == if c.started then c.startedAt else m.at
  {
    hide FromImage, FromScript, ScriptResult, CompleteEvaluation, StartDomFallback;
    match m.event {
      case CaptureTimeout(frameLive) => TimeoutTimers(c, m.at, frameLive, decode);
      case EvaluationResult(success, value, rendered) =>
        var e := c.evaluation.value.(resultPending := false);
        EvaluationEffect(c.(now := m.at, evaluation := Some(e)), ScriptResult(success, value, rendered), decode);
      case EvaluationTimeout =>
        EvaluationEffect(c.(now := m.at, evaluation := Some(c.evaluation.value.(timer := None))),
                         EVALUATION_TIMED_OUT, decode);
      case _ =>
    }
  }

  lemma StepInTime(c: Capture, moments: seq<Moment>, m: Moment, decode: Decoder)
    requires Inv(c, moments, decode) && Enabled(c, m) && Punctual(c, m) && InTime(c)
    ensures InTime(Step(c, m, decode))
    ensures c.started ==> Step(c, m, decode).started && Step(c, m, decode).startedAt == c.startedAt
    ensures c.answers != [] ==> Step(c, m, decode).answers == c.answers
  {
    hide FirstAnswer, Step, Enabled, Decision;
    StepTimers(c, m, decode);
    StepAnswers(c, m, decode);
  }

  lemma {:induction false} RunInTime(c: Capture, moments: seq<Moment>, more: seq<Moment>, i: nat, decode: Decoder)
    requires Inv(c, moments, decode) && InTime(c) && c.started
    requires Possible(c, more, decode) && OnTime(c, more, decode)
    requires i < |more| && more[i].at > c.startedAt + CAPTURE_TIMEOUT + EVALUATION_TIMEOUT
    ensures var answers := After(c, more, decode).answers;
            |answers| == 1 && answers[0].event < c.handled + i &&
            answers[0].at <= c.startedAt + CAPTURE_TIMEOUT + EVALUATION_TIMEOUT
    decreases |more|
  {
    hide FirstAnswer, Step, Enabled;
    if c.answers != [] {
      KeepsAnswer(c, moments, more, decode);
    } else {
      assert i > 0;
      StepKeeps(c, moments, more[0], decode);
      StepInTime(c, moments, more[0], decode);
      assert Step(c, more[0], decode).handled == c.handled + 1 by {
        assert Step(c, more[0], decode).handled == |moments + [more[0]]|;
      }
      RunInTime(Step(c, more[0], decode), moments + [more[0]], more[1..], i - 1, decode);
    }
  }

  lemma {:induction false} KeepsAnswer(c: Capture, moments: seq<Moment>, more: seq<Moment>, decode: Decoder)
    requires Inv(c, moments, decode) && Possible(c, more, decode) && c.answers != []
    ensures After(c, more, decode).answers == c.answers && |c.answers| == 1
  {
    hide Decision;
    FirstAnswerShape(c.contents, moments, decode);
    RunKeeps(c, moments, more, decode);
    FirstAnswerKept(c.contents, moments, more, decode);
  }

  lemma {:induction false} FirstAnswerKept(contents: bool, moments: seq<Moment>, more: seq<Moment>, decode: Decoder)
    requires FirstAnswer(contents, moments, decode) != []
    ensures FirstAnswer(contents, moments + more, decode) == FirstAnswer(contents, moments, decode)
    decreases |more|
  {
    hide Decision;
    if more == [] {
      assert moments + more == moments;
    } else {
      var n := |more| - 1;
      FirstAnswerKept(contents, moments, more[..n], decode);
      assert moments + more == moments + more[..n] + [more[n]];
      FirstAnswerSnoc(contents, moments + more[..n], more[n], decode);
    }
  }

  /**
   When timers fire on time, a capture has answered, no later than 18 seconds after it was started,
   before anything later than that happens.
   */
  lemma AnsweredInTime(contents: bool, moments: seq<Moment>, i: nat, decode: Decoder)
    requires Possible(Created(contents), moments, decode) && OnTime(Created(contents), moments, decode)
    requires i < |moments| && moments[i].at > moments[0].at + 18000
    ensures var answers := After(Created(contents), moments, decode).answers;
            |answers| == 1 && answers[0].event < i && answers[0].at <= moments[0].at + 18000
  {
    var c := Created(contents);
    CreatedInv(contents, decode);
    StepKeeps(c, [], moments[0], decode);
    StepInTime(c, [], moments[0], decode);
    assert [] + [moments[0]] == [moments[0]];
    RunInTime(Step(c, moments[0], decode), [moments[0]], moments[1..], i - 1, decode);
  }

  /** With timers on time, each of the two timeouts comes exactly when it is due: 8 and 18 seconds after the start. */
  lemma {:induction false} TimeoutsExact(contents: bool, moments: seq<Moment>, i: nat, decode: Decoder)
    requires Possible(Created(contents), moments, decode) && OnTime(Created(contents), moments, decode)
    requires i < |moments|
    ensures moments[i].event.CaptureTimeout? ==> moments[i].at == moments[0].at + 8000
    ensures moments[i].event.EvaluationTimeout? ==> moments[i].at == moments[0].at + 18000
  {
    var c := Created(contents);
    CreatedInv(contents, decode);
    StepKeeps(c, [], moments[0], decode);
    StepInTime(c, [], moments[0], decode);
    assert [] + [moments[0]] == [moments[0]];
    if i > 0 {
      RunTimeouts(Step(c, moments[0], decode), [moments[0]], moments[1..], i - 1, decode);
    }
  }

  lemma {:induction false} RunTimeouts(c: Capture, moments: seq<Moment>, more: seq<Moment>, i: nat, decode: Decoder)
    requires Inv(c, moments, decode) && InTime(c) && c.started
    requires Possible(c, more, decode) && OnTime(c, more, decode) && i < |more|
    ensures more[i].event.CaptureTimeout? ==> more[i].at == c.startedAt + CAPTURE_TIMEOUT
    ensures more[i].event.EvaluationTimeout? ==> more[i].at == c.startedAt + CAPTURE_TIMEOUT + EVALUATION_TIMEOUT
    decreases |more|
  {
    hide FirstAnswer, Step, Sound;
    if i > 0 {
      StepKeeps(c, moments, more[0], decode);
      StepInTime(c, moments, more[0], decode);
      RunTimeouts(Step(c, more[0], decode), moments + [more[0]], more[1..], i - 1, decode);
    }
  }
}
