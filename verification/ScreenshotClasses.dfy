/** The two screenshot request objects as the program keeps them, proved to move as Screenshot says. */
module ScreenshotClasses {
  import opened Wrappers
  import opened Screenshot

  class JavaScriptEvaluationRequest {
    /** The capture whose OnDomFallback is bound; null once the callback has been run. */
    var callback: ScreenshotCaptureRequest?
    var timer: Option<nat>
    var deleted: bool
    ghost var resultPending: bool
    ghost var runs: nat
    ghost var deletesPosted: nat

    ghost function State(): Evaluation
      reads this
    {
      Evaluation(callback != null, timer, resultPending, runs, deletesPosted, deleted)
    }

    ghost predicate BoundTo(capture: ScreenshotCaptureRequest)
      reads this, capture
    {
      capture.evaluation == this && (callback == null || callback == capture)
    }

    constructor (capture: ScreenshotCaptureRequest)
      ensures callback == capture && State() == Evaluation(true, None, false, 0, 0, false)
    {
      callback, timer, deleted := capture, None, false;
      resultPending, runs, deletesPosted := false, 0, 0;
    }

    method Complete(ghost capture: ScreenshotCaptureRequest, result: Result<Js>, decode: Decoder)
      requires BoundTo(capture)
      modifies this, capture
      ensures BoundTo(capture) && capture.State() == CompleteEvaluation(old(capture.State()), result, decode)
    {
      if callback == null {
        return;
      }
      timer := None;
      var moved := callback;
      callback := null;
      moved.OnDomFallback(result, decode);
      runs := runs + 1;
      deletesPosted := deletesPosted + 1;
    }

    method Start(ghost capture: ScreenshotCaptureRequest, contents: bool, frameLive: bool, timeout: int, now: nat,
                 decode: Decoder)
      requires BoundTo(capture) && contents == capture.contents && now == capture.now
      requires State() == Evaluation(true, None, false, 0, 0, false)
      modifies this, capture
      ensures BoundTo(capture)
      ensures capture.State() == StartEvaluation(old(capture.State()), frameLive, timeout, decode)
    {
      if !contents {
        Complete(capture, Bad(TabNotFound, "Tab not found"), decode);
        return;
      }
      if !frameLive {
        Complete(capture, Bad(NoActiveFrame, "No active frame"), decode);
        return;
      }
      if timeout > 0 {
        timer := Some(now + timeout);
      }
      resultPending := true;
    }

    method OnResult(ghost capture: ScreenshotCaptureRequest, success: bool, value: Js, rendered: string,
            decode: Decoder)
      requires BoundTo(capture)
      requires Enabled(capture.State(), Moment(capture.now, EvaluationResult(success, value, rendered)))
      modifies this, capture
      ensures BoundTo(capture)
      ensures capture.State() ==
              Handle(old(capture.State()), Moment(old(capture.now), EvaluationResult(success, value, rendered)), decode)
    {
      resultPending := false;
      if deleted {
        return;
      }
      if !success {
        var message := rendered;
        if value.Text? {
          message := value.text;
        }
        Complete(capture, Bad(InternalError, message), decode);
        return;
      }
      Complete(capture, Good(value), decode);
    }

    method OnTimeout(ghost capture: ScreenshotCaptureRequest, decode: Decoder)
      requires BoundTo(capture) && Enabled(capture.State(), Moment(capture.now, EvaluationTimeout))
      modifies this, capture
      ensures BoundTo(capture)
      ensures capture.State() == Handle(old(capture.State()), Moment(old(capture.now), EvaluationTimeout), decode)
    {
      timer := None;
      Complete(capture, Bad(TimedOut, "JavaScript evaluation timeout"), decode);
    }
  }

  class ScreenshotCaptureRequest {
    const contents: bool
    var callback: bool
    var timer: Option<nat>
    var deleted: bool
    /** The time of the event being handled. */
    var now: nat
    ghost var started: bool
    ghost var startedAt: nat
    ghost var snapshotPending: bool
    ghost var evaluation: JavaScriptEvaluationRequest?
    ghost var answers: seq<Answer>
    ghost var deletesPosted: nat
    ghost var handled: nat

    ghost function State(): Capture
      reads this, evaluation
    {
      Capture(contents, started, startedAt, callback, timer, snapshotPending,
              if evaluation == null then None else Some(evaluation.State()),
              answers, deletesPosted, deleted, now, handled)
    }

    constructor (contents: bool)
      ensures State() == Created(contents)
    {
      this.contents := contents;
      callback, timer, deleted, now := true, None, false, 0;
      started, startedAt, snapshotPending, evaluation := false, 0, false, null;
      answers, deletesPosted, handled := [], 0, 0;
    }

    method Complete(result: Result<Bytes>)
      modifies this
      ensures evaluation == old(evaluation) && State() == Screenshot.Complete(old(State()), result)
    {
      if !callback {
        return;
      }
      timer := None;
      callback := false;
      answers := answers + [Answer(result, handled, now)];
      deletesPosted := deletesPosted + 1;
    }

    method Start(view: bool, widget: bool)
      requires !started
      modifies this
      ensures evaluation == old(evaluation)
      ensures State() == Handle(old(State()), Moment(old(now), Event.Start(view, widget)), _ => None)
    {
      started, startedAt := true, now;
      if !view {
        Complete(Bad(ScreenshotFailed, "No render view available"));
        return;
      }
      if !widget {
        Complete(Bad(ScreenshotFailed, "No render widget available"));
        return;
      }
      timer := Some(now + CAPTURE_TIMEOUT);
      snapshotPending := true;
    }

    method OnSnapshotFromBrowser(image: Image)
      requires snapshotPending
      modifies this
      ensures evaluation == old(evaluation)
      ensures State() == Handle(old(State()), Moment(old(now), Snapshot(image)), _ => None)
    {
      snapshotPending := false;
      if deleted {
        return;
      }
      match image
      case Empty => Complete(Bad(ScreenshotFailed, "Screenshot failed"));
      case DrawsNothing => Complete(Bad(ScreenshotFailed, "Screenshot is empty"));
      case Unencodable => Complete(Bad(ScreenshotFailed, "PNG encoding failed"));
      case Encoded(png) => Complete(Good(png));
    }

    method OnTimeout(frameLive: bool, decode: Decoder)
      requires Sound(State()) && Enabled(State(), Moment(now, CaptureTimeout(frameLive)))
      modifies this
      ensures evaluation != null ==> evaluation.BoundTo(this) && fresh(evaluation)
      ensures evaluation == null ==> old(evaluation) == null
      ensures State() == Handle(old(State()), Moment(old(now), CaptureTimeout(frameLive)), decode)
    {
      timer := None;
      if !contents {
        Complete(Bad(TimedOut, "Screenshot timed out"));
        return;
      }
      var request := new JavaScriptEvaluationRequest(this);
      evaluation := request;
      request.Start(this, contents, frameLive, EVALUATION_TIMEOUT, now, decode);
    }

    method OnDomFallback(result: Result<Js>, decode: Decoder)
      modifies this
      ensures evaluation == old(evaluation) && State() == Screenshot.OnDomFallback(old(State()), result, decode)
    {
      if deleted {
        return;
      }
      if result.Bad? {
        Complete(Bad(result.code, result.message));
        return;
      }
      if !result.value.Text? {
        Complete(Bad(ScreenshotFailed, "Screenshot fallback returned no data"));
        return;
      }
      var dataUrl := result.value.text;
      if !(PNG_DATA_URL_PREFIX <= dataUrl) {
        Complete(Bad(ScreenshotFailed, "Screenshot fallback returned invalid data"));
        return;
      }
      var bytes := decode(dataUrl[|PNG_DATA_URL_PREFIX|..]);
      if bytes.None? || bytes.value == [] {
        Complete(Bad(ScreenshotFailed, "Screenshot fallback PNG decode failed"));
        return;
      }
      Complete(Good(bytes.value));
    }
  }

  // ---------- Whole runs ----------

  ghost predicate Valid(capture: ScreenshotCaptureRequest)
    reads capture, capture.evaluation
  {
    Sound(capture.State()) && (capture.evaluation != null ==> capture.evaluation.BoundTo(capture))
  }

  lemma TimePasses(c: Capture, m: Moment)
    requires Sound(c) && Enabled(c, m)
    ensures Sound(c.(now := m.at)) && Enabled(c.(now := m.at), Moment(m.at, m.event))
    ensures m.event.EvaluationResult? || m.event.EvaluationTimeout? || m.event.DeleteEvaluation? ==> c.evaluation.Some?
  {
  }

  /** The event loop runs one callback, timer or deletion of the nested request. */
  method ReceiveInner(capture: ScreenshotCaptureRequest, evaluation: JavaScriptEvaluationRequest, e: Event,
          decode: Decoder)
    requires evaluation.BoundTo(capture) && Enabled(capture.State(), Moment(capture.now, e))
    requires e.EvaluationResult? || e.EvaluationTimeout? || e.DeleteEvaluation?
    modifies capture, evaluation
    ensures evaluation.BoundTo(capture)
    ensures capture.State() == Handle(old(capture.State()), Moment(old(capture.now), e), decode)
  {
    hide CompleteEvaluation, ScriptResult;
    match e {
      case EvaluationResult(success, value, rendered) => evaluation.OnResult(capture, success, value, rendered, decode);
      case EvaluationTimeout => evaluation.OnTimeout(capture, decode);
      case DeleteEvaluation =>
        evaluation.deletesPosted := evaluation.deletesPosted - 1;
        evaluation.deleted := true;
    }
  }

  /** The event loop runs one callback, timer or deletion of the capture. */
  method ReceiveOuter(capture: ScreenshotCaptureRequest, e: Event, decode: Decoder)
    requires Valid(capture) && Enabled(capture.State(), Moment(capture.now, e))
    requires e.Start? || e.Snapshot? || e.CaptureTimeout? || e.DeleteCapture?
    modifies capture
    ensures capture.State() == Handle(old(capture.State()), Moment(old(capture.now), e), decode)
    ensures capture.evaluation != null ==> capture.evaluation.BoundTo(capture)
    ensures capture.evaluation == old(capture.evaluation) || fresh(capture.evaluation)
  {
    hide OnStart, FromImage, Screenshot.Complete, StartDomFallback;
    match e {
      case Start(view, widget) => capture.Start(view, widget);
      case Snapshot(image) => capture.OnSnapshotFromBrowser(image);
      case CaptureTimeout(frameLive) => capture.OnTimeout(frameLive, decode);
      case DeleteCapture =>
        capture.deletesPosted := capture.deletesPosted - 1;
        capture.deleted := true;
    }
  }

  /** One step of a capture's life: Screenshot.AnswersFirstDecision says what it answers. */
  method Receive(capture: ScreenshotCaptureRequest, evaluation: JavaScriptEvaluationRequest?, m: Moment,
          decode: Decoder)
    requires Valid(capture) && evaluation == capture.evaluation && Enabled(capture.State(), m)
    modifies capture, evaluation
    ensures capture.State() == Step(old(capture.State()), m, decode) && Valid(capture)
    ensures capture.evaluation == evaluation || fresh(capture.evaluation)
  {
    hide Handle, Sound, Enabled;
    StepSound(capture.State(), m, decode);
    TimePasses(capture.State(), m);
    ghost var handled := capture.handled;
    capture.now := m.at;
    if m.event.EvaluationResult? || m.event.EvaluationTimeout? || m.event.DeleteEvaluation? {
      ReceiveInner(capture, evaluation, m.event, decode);
    } else {
      ReceiveOuter(capture, m.event, decode);
    }
    capture.handled := handled + 1;
  }
}
