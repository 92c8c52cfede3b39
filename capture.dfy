/** The recognition capture loop of transcribeAudio, as a state machine.
    Its state is the loop's closure variables; its inputs are the events the
    recognizer, the playback source and the timers deliver; its outputs are
    the calls the handlers make. Timer delays are labels on the actions that
    schedule them, and the promise keeps its first settlement. */
module Capture {
  import opened Wrappers
  import opened Transcript

  const PlaybackRate: real := 1.5
  const MaxNoSpeech: nat := 30
  const NoSpeechRetryMs: nat := 100
  const AbortedRetryMs: nat := 150
  const NetworkRetryMs: nat := 500
  const EndRetryMs: nat := 50
  const GraceMs: nat := 800
  /** Seconds of context time before the end at which an ended recognizer is
      no longer restarted. */
  const EndMargin: real := 0.3
  const DefaultConfidence: real := 0.85
  const UnsupportedMessage: string := "Web Speech API не поддерживается в этом браузере"
  const MicrophoneDeniedMessage: string := "Доступ к микрофону запрещен. Разрешите доступ в настройках браузера."

  /** The recognizer's `event.error`; `OtherError` is any other code. */
  datatype ErrorKind = NoSpeech | Aborted | NotAllowed | Network | OtherError(code: string)

  /** `results[i].isFinal` with the first alternative `results[i][0]`. */
  datatype Recognized = Recognized(isFinal: bool, transcript: string, confidence: real)

  /** `startThrows` says whether `recognition.start()` throws at that moment;
      context times are `audioContext.currentTime` in seconds, `None` once
      `stop()` has released the audio context. */
  datatype Event =
    | Launch(startThrows: bool)
    | RestartTimerFired(startThrows: bool)
    | RecognitionStarted
    | Results(results: seq<Recognized>, resultIndex: nat, contextTime: Option<real>)
    | RecognitionError(kind: ErrorKind)
    | RecognitionEnded(contextTime: Option<real>)
    | SourceEnded
    | GraceElapsed
    | ProgressTick(tickTime: Option<real>)

  /** The calls the handlers make, in order. */
  datatype Action =
    | StartSource
    | StartRecognizer
    | StopRecognizer
    | ScheduleRestart(timer: nat, delayMs: nat)
    | CancelRestart(timer: nat)
    | ScheduleGrace(delayMs: nat)
    | StopProgressTicker
    | Progress(percent: real)
    | SegmentReady(segment: Segment)
    | Resolve(segments: seq<Segment>)
    | Reject(message: string)

  datatype Outcome = Pending | Resolved(segments: seq<Segment>) | Rejected(message: string)

  /** The closure variables of the loop: `startTime` is the end of the last
      segment, `restartTimeout` the handle of the latest restart timer;
      `progressTicking` is false once the progress interval is cleared and
      `graceArmed` is true once the source has ended and its grace timer is
      pending. */
  datatype CaptureState = CaptureState(
    duration: real,
    startTime: real,
    shouldContinue: bool,
    isRecognitionActive: bool,
    noSpeechCount: nat,
    lastProgressUpdate: real,
    progressTicking: bool,
    restartTimeout: Option<nat>,
    nextTimerId: nat,
    graceArmed: bool,
    segments: seq<Segment>,
    outcome: Outcome)

  datatype Next = Next(state: CaptureState, actions: seq<Action>)

  /** The loop right after the promise is created: running, progress ticker
      on, nothing recognised. */
  function Initial(duration: real): CaptureState {
    CaptureState(duration, 0.0, true, false, 0, 0.0, true, None, 1, false, [], Pending)
  }

  /** The start of transcribeAudio: it throws when no recognizer exists and
      passes on a decoding failure; otherwise it reports 10% and the loop
      begins. */
  function Open(hasRecognizer: bool, decoded: Result<real>): (r: Result<Next>)
    ensures !hasRecognizer ==> r == Err(UnsupportedMessage)
    ensures hasRecognizer && decoded.Err? ==> r == Err(decoded.message)
    ensures hasRecognizer && decoded.Ok? ==> r == Ok(Next(Initial(decoded.value), [Progress(10.0)]))
  {
    if !hasRecognizer then Err(UnsupportedMessage)
    else match decoded
      case Err(e) => Err(e)
      case Ok(duration) => Ok(Next(Initial(duration), [Progress(10.0)]))
  }

  /** The first settlement of the promise is the one that counts. */
  function FirstWins(current: Outcome, offered: Outcome): Outcome {
    if current.Pending? then offered else current
  }

  /** `clearInterval(progressInterval); onProgress(100); resolve(segments)`. */
  function Resolving(s: CaptureState): Next {
    Next(s.(progressTicking := false, outcome := FirstWins(s.outcome, Resolved(s.segments))),
         [StopProgressTicker, Progress(100.0), Resolve(s.segments)])
  }

  /** `recognitionRestartTimeout = setTimeout(startRecognition, delay)`. */
  function Restart(s: CaptureState, delayMs: nat): Next {
    Next(s.(restartTimeout := Some(s.nextTimerId), nextTimerId := s.nextTimerId + 1),
         [ScheduleRestart(s.nextTimerId, delayMs)])
  }

  /** startRecognition: nothing when stopped or already active; otherwise it
      marks the recognizer active and starts it, and clears the mark again
      when the start throws. */
  function AfterStartRecognition(s: CaptureState, startThrows: bool): Next {
    if !s.shouldContinue || s.isRecognitionActive then Next(s, [])
    else Next(s.(isRecognitionActive := !startThrows), [StartRecognizer])
  }

  /** `confidence || 0.85`. */
  function ConfidenceOf(c: real): real {
    if c == 0.0 then DefaultConfidence else c
  }

  /** One entry of the result list: a final result with non-blank trimmed
      text becomes a segment from the cursor to the context time scaled back
      by the playback rate, and the cursor moves to its end. */
  function TakeResult(s: CaptureState, r: Recognized, contextTime: real): Next {
    var text := Trim(r.transcript);
    if r.isFinal && |text| > 0 then
      var currentTime := contextTime / PlaybackRate;
      var segment := Segment(text, s.startTime, currentTime, PlaceholderLabel, ConfidenceOf(r.confidence));
      Next(s.(segments := s.segments + [segment], startTime := currentTime), [SegmentReady(segment)])
    else Next(s, [])
  }

  /** The entries of `rs`, in order. */
  function TakeResults(s: CaptureState, rs: seq<Recognized>, contextTime: real): Next {
    if |rs| == 0 then Next(s, [])
    else
      var n := TakeResults(s, rs[..|rs| - 1], contextTime);
      var m := TakeResult(n.state, rs[|rs| - 1], contextTime);
      Next(m.state, n.actions + m.actions)
  }

  lemma TakeResultsSnoc(s: CaptureState, rs: seq<Recognized>, r: Recognized, contextTime: real)
    ensures var n := TakeResults(s, rs, contextTime);
      var m := TakeResult(n.state, r, contextTime);
      TakeResults(s, rs + [r], contextTime) == Next(m.state, n.actions + m.actions)
  {
    assert (rs + [r])[..|rs|] == rs;
  }

  /** The entries of `event.results` from `resultIndex` on. */
  function Entries(results: seq<Recognized>, resultIndex: nat): seq<Recognized> {
    if resultIndex <= |results| then results[resultIndex..] else []
  }

  /** `onresult`: the entries from `resultIndex` on. Once the audio context
      is released, the first final entry throws on `this.audioContext!`
      before anything is stored, and the entries before it are interim, so
      the handler changes nothing. */
  function AfterResults(s: CaptureState, results: seq<Recognized>, resultIndex: nat, contextTime: Option<real>): Next {
    match contextTime
    case Some(t) => TakeResults(s, Entries(results, resultIndex), t)
    case None => Next(s, [])
  }

  /** `onerror`. */
  function AfterError(s0: CaptureState, kind: ErrorKind): Next {
    var s := s0.(isRecognitionActive := false);
    match kind
    case NoSpeech =>
      var t := s.(noSpeechCount := s.noSpeechCount + 1);
      if t.noSpeechCount < MaxNoSpeech && t.shouldContinue then Restart(t, NoSpeechRetryMs)
      else Resolving(t.(shouldContinue := false))
    case Aborted =>
      if s.shouldContinue then Restart(s, AbortedRetryMs) else Resolving(s)
    case NotAllowed =>
      Next(s.(progressTicking := false, outcome := FirstWins(s.outcome, Rejected(MicrophoneDeniedMessage))),
           [StopProgressTicker, Reject(MicrophoneDeniedMessage)])
    case Network =>
      if s.shouldContinue then Restart(s, NetworkRetryMs) else Next(s, [])
    case OtherError(_) => Next(s, [])
  }

  /** `onend`: restart while running and short of the end of the sped-up
      playback, otherwise stop and resolve. While running, a released audio
      context makes the condition throw after the active mark is cleared;
      when stopped, `&&` never reads the context. */
  function AfterEnd(s0: CaptureState, contextTime: Option<real>): Next {
    var s := s0.(isRecognitionActive := false);
    if s.shouldContinue && contextTime.None? then Next(s, [])
    else if s.shouldContinue && contextTime.value < s.duration * PlaybackRate - EndMargin then Restart(s, EndRetryMs)
    else Resolving(s.(shouldContinue := false))
  }

  /** `source.onended`: stop, cancel the latest restart timer, arm the grace timer. */
  function AfterSourceEnded(s: CaptureState): Next {
    Next(s.(shouldContinue := false, graceArmed := true),
         (if s.restartTimeout.Some? then [CancelRestart(s.restartTimeout.value)] else []) + [ScheduleGrace(GraceMs)])
  }

  /** The grace timer: stop a recognizer that is still active, then resolve. */
  function AfterGrace(s: CaptureState): Next {
    if !s.graceArmed then Next(s, [])
    else
      var r := Resolving(s.(graceArmed := false));
      Next(r.state, (if s.isRecognitionActive then [StopRecognizer] else []) + r.actions)
  }

  /** The progress interval: the position in the original audio as a
      percentage capped at 99, reported only when it moved by at least one
      point or reached the cap. */
  function AfterTick(s: CaptureState, contextTime: Option<real>): Next
    requires s.duration > 0.0
  {
    if !s.progressTicking || contextTime.None? then Next(s, [])
    else
      var currentTime := contextTime.value / PlaybackRate;
      var raw := currentTime / s.duration * 100.0;
      var progress := if raw <= 99.0 then raw else 99.0;
      if progress - s.lastProgressUpdate >= 1.0 || progress >= 99.0 then
        Next(s.(lastProgressUpdate := progress), [Progress(progress)])
      else Next(s, [])
  }

  /** The 300 ms start timer: start playback, then recognition. */
  function AfterLaunch(s: CaptureState, startThrows: bool): Next {
    var n := AfterStartRecognition(s, startThrows);
    Next(n.state, [StartSource] + n.actions)
  }

  function Step(s: CaptureState, e: Event): Next
    requires s.duration > 0.0
  {
    match e
    case Launch(startThrows) => AfterLaunch(s, startThrows)
    case RestartTimerFired(startThrows) => AfterStartRecognition(s, startThrows)
    case RecognitionStarted => Next(s.(isRecognitionActive := true), [])
    case Results(results, resultIndex, contextTime) => AfterResults(s, results, resultIndex, contextTime)
    case RecognitionError(kind) => AfterError(s, kind)
    case RecognitionEnded(contextTime) => AfterEnd(s, contextTime)
    case SourceEnded => AfterSourceEnded(s)
    case GraceElapsed => AfterGrace(s)
    case ProgressTick(contextTime) => AfterTick(s, contextTime)
  }

  // ------------------------------------------------------------ invariant

  /** Every segment carries trimmed non-blank text and the placeholder
      label, each starts where the previous one ended, the first at 0, and
      the cursor is the end of the last. */
  predicate Contiguous(segments: seq<Segment>, cursor: real) {
    && (|segments| == 0 ==> cursor == 0.0)
    && (|segments| > 0 ==> segments[0].startTime == 0.0 && segments[|segments| - 1].endTime == cursor)
    && (forall k :: 0 < k < |segments| ==> segments[k].startTime == segments[k - 1].endTime)
    && (forall k :: 0 <= k < |segments| ==> Captured(segments[k]))
  }

  /** A segment as the capture loop builds it. */
  predicate Captured(segment: Segment) {
    && |segment.text| > 0 && Trim(segment.text) == segment.text
    && segment.speakerLabel == PlaceholderLabel && segment.confidence != 0.0
  }

  lemma ContiguousAppend(segments: seq<Segment>, cursor: real, segment: Segment)
    requires Contiguous(segments, cursor) && Captured(segment) && segment.startTime == cursor
    ensures Contiguous(segments + [segment], segment.endTime)
  {
    var t := segments + [segment];
    assert forall k :: 0 <= k < |segments| ==> t[k] == segments[k];
  }

  predicate Valid(s: CaptureState) {
    && s.duration > 0.0
    && Contiguous(s.segments, s.startTime)
    && (s.noSpeechCount >= MaxNoSpeech ==> !s.shouldContinue && !s.outcome.Pending?)
    && (s.outcome.Resolved? ==> !s.shouldContinue)
    && (s.progressTicking <==> s.outcome.Pending?)
    && (s.graceArmed ==> !s.shouldContinue)
    && s.lastProgressUpdate <= 99.0
    && s.nextTimerId >= 1
    && (s.restartTimeout.Some? ==> 1 <= s.restartTimeout.value == s.nextTimerId - 1)
  }

  lemma InitialValid(duration: real)
    requires duration > 0.0
    ensures Valid(Initial(duration))
  {
  }

  lemma TakeResultValid(s: CaptureState, r: Recognized, contextTime: real)
    requires Valid(s)
    ensures Valid(TakeResult(s, r, contextTime).state)
  {
    var text := Trim(r.transcript);
    if r.isFinal && |text| > 0 {
      TrimIdempotent(r.transcript);
      ContiguousAppend(s.segments, s.startTime, Segment(text, s.startTime, contextTime / PlaybackRate, PlaceholderLabel, ConfidenceOf(r.confidence)));
    }
  }

  lemma {:induction false} TakeResultsValid(s: CaptureState, rs: seq<Recognized>, contextTime: real)
    requires Valid(s)
    ensures Valid(TakeResults(s, rs, contextTime).state)
  {
    if |rs| > 0 {
      TakeResultsValid(s, rs[..|rs| - 1], contextTime);
      TakeResultValid(TakeResults(s, rs[..|rs| - 1], contextTime).state, rs[|rs| - 1], contextTime);
    }
  }

  /** Resolving a stopped loop restores the invariant whatever its
      no-speech count. */
  lemma ResolvingValid(s: CaptureState)
    requires Valid(s.(noSpeechCount := 0)) && !s.shouldContinue
    ensures Valid(Resolving(s).state)
  {
  }

  lemma RestartValid(s: CaptureState, delayMs: nat)
    requires Valid(s)
    ensures Valid(Restart(s, delayMs).state)
  {
  }

  lemma ErrorValid(s: CaptureState, kind: ErrorKind)
    requires Valid(s)
    ensures Valid(AfterError(s, kind).state)
  {
    var t := s.(isRecognitionActive := false);
    assert Valid(t);
    match kind
    case NoSpeech =>
      var u := t.(noSpeechCount := t.noSpeechCount + 1);
      if u.noSpeechCount < MaxNoSpeech && u.shouldContinue {
        RestartValid(u, NoSpeechRetryMs);
      } else {
        ResolvingValid(u.(shouldContinue := false));
      }
    case Aborted =>
      if t.shouldContinue { RestartValid(t, AbortedRetryMs); } else { ResolvingValid(t); }
    case NotAllowed =>
    case Network =>
      if t.shouldContinue { RestartValid(t, NetworkRetryMs); }
    case OtherError(_) =>
  }

  lemma EndValid(s: CaptureState, contextTime: Option<real>)
    requires Valid(s)
    ensures Valid(AfterEnd(s, contextTime).state)
  {
    var t := s.(isRecognitionActive := false);
    if t.shouldContinue && contextTime.None? {
    } else if t.shouldContinue && contextTime.value < t.duration * PlaybackRate - EndMargin {
      RestartValid(t, EndRetryMs);
    } else {
      ResolvingValid(t.(shouldContinue := false));
    }
  }

  lemma GraceValid(s: CaptureState)
    requires Valid(s)
    ensures Valid(AfterGrace(s).state)
  {
    if s.graceArmed {
      ResolvingValid(s.(graceArmed := false));
    }
  }

  lemma TickValid(s: CaptureState, contextTime: Option<real>)
    requires Valid(s)
    ensures Valid(AfterTick(s, contextTime).state)
  {
  }

  /** Every transition keeps the invariant: segments stay contiguous and
      well formed, 30 no-speech errors leave the loop stopped and settled,
      a resolved loop is stopped, the ticker runs exactly while the promise
      is pending, and reported progress stays at or below 99. */
  lemma StepValid(s: CaptureState, e: Event)
    requires Valid(s)
    ensures Valid(Step(s, e).state)
  {
    match e
    case Launch(_) =>
    case RestartTimerFired(_) =>
    case RecognitionStarted =>
    case Results(results, resultIndex, contextTime) =>
      if contextTime.Some? {
        TakeResultsValid(s, Entries(results, resultIndex), contextTime.value);
      }
    case RecognitionError(kind) => ErrorValid(s, kind);
    case RecognitionEnded(contextTime) => EndValid(s, contextTime);
    case SourceEnded =>
    case GraceElapsed => GraceValid(s);
    case ProgressTick(contextTime) => TickValid(s, contextTime);
  }

  /** The state after a sequence of events. */
  function Run(s: CaptureState, events: seq<Event>): CaptureState
    requires Valid(s)
    decreases |events|
  {
    if |events| == 0 then s
    else
      StepValid(s, events[0]);
      Run(Step(s, events[0]).state, events[1..])
  }

  lemma {:induction false} RunValid(s: CaptureState, events: seq<Event>)
    requires Valid(s)
    ensures Valid(Run(s, events))
    decreases |events|
  {
    if |events| > 0 {
      StepValid(s, events[0]);
      RunValid(Step(s, events[0]).state, events[1..]);
    }
  }

  // ------------------------------------------------------------ properties

  /** What one transition does to the counter, the stop flag and the
      outcome: the counter grows by one exactly on a no-speech error, a
      stopped loop stays stopped, and a settled outcome stays. */
  lemma StepFrame(s: CaptureState, e: Event)
    requires Valid(s)
    ensures Step(s, e).state.noSpeechCount == s.noSpeechCount + (if e == RecognitionError(NoSpeech) then 1 else 0)
    ensures !s.shouldContinue ==> !Step(s, e).state.shouldContinue
    ensures !s.outcome.Pending? ==> Step(s, e).state.outcome == s.outcome
  {
    match e
    case Results(results, resultIndex, contextTime) =>
      if contextTime.Some? {
        TakeResultsQuiet(s, Entries(results, resultIndex), contextTime.value);
      }
    case RecognitionError(kind) =>
      ErrorFrame(s, kind);
    case _ =>
  }

  lemma ErrorFrame(s: CaptureState, kind: ErrorKind)
    ensures AfterError(s, kind).state.noSpeechCount == s.noSpeechCount + (if kind == NoSpeech then 1 else 0)
    ensures !s.shouldContinue ==> !AfterError(s, kind).state.shouldContinue
    ensures !s.outcome.Pending? ==> AfterError(s, kind).state.outcome == s.outcome
  {
  }

  /** Once settled, the promise keeps its outcome whatever happens next. */
  lemma {:induction false} SettledIsFinal(s: CaptureState, events: seq<Event>)
    requires Valid(s) && !s.outcome.Pending?
    ensures Run(s, events).outcome == s.outcome
    decreases |events|
  {
    if |events| > 0 {
      StepValid(s, events[0]);
      StepFrame(s, events[0]);
      SettledIsFinal(Step(s, events[0]).state, events[1..]);
    }
  }

  predicate Restarts(actions: seq<Action>) {
    exists k :: 0 <= k < |actions| && (actions[k].ScheduleRestart? || actions[k] == StartRecognizer)
  }

  /** A stopped loop stays stopped and neither schedules a restart nor
      starts the recognizer. */
  lemma StoppedStaysStopped(s: CaptureState, e: Event)
    requires s.duration > 0.0 && !s.shouldContinue
    ensures !Step(s, e).state.shouldContinue
    ensures !Restarts(Step(s, e).actions)
  {
    if e.Results? && e.contextTime.Some? {
      TakeResultsQuiet(s, Entries(e.results, e.resultIndex), e.contextTime.value);
    }
  }

  /** Results touch only the segments and the cursor, and emit only segment
      notifications. */
  lemma {:induction false} TakeResultsQuiet(s: CaptureState, rs: seq<Recognized>, contextTime: real)
    ensures TakeResults(s, rs, contextTime).state ==
      s.(segments := TakeResults(s, rs, contextTime).state.segments,
         startTime := TakeResults(s, rs, contextTime).state.startTime)
    ensures forall k :: 0 <= k < |TakeResults(s, rs, contextTime).actions| ==>
      TakeResults(s, rs, contextTime).actions[k].SegmentReady?
  {
    if |rs| > 0 {
      TakeResultsQuiet(s, rs[..|rs| - 1], contextTime);
    }
  }

  /** The final, non-blank entries of `rs`, trimmed, in order. */
  function KeptTexts(rs: seq<Recognized>): seq<string> {
    if |rs| == 0 then []
    else
      var text := Trim(rs[|rs| - 1].transcript);
      KeptTexts(rs[..|rs| - 1]) + (if rs[|rs| - 1].isFinal && |text| > 0 then [text] else [])
  }

  /** The stored confidences of the final, non-blank entries of `rs`, in
      order: a confidence of 0 is replaced by 0.85. */
  function KeptConfidences(rs: seq<Recognized>): seq<real> {
    if |rs| == 0 then []
    else
      var r := rs[|rs| - 1];
      KeptConfidences(rs[..|rs| - 1])
        + (if r.isFinal && |Trim(r.transcript)| > 0 then [if r.confidence == 0.0 then DefaultConfidence else r.confidence] else [])
  }

  function Confidences(segments: seq<Segment>): (r: seq<real>)
    ensures |r| == |segments| && forall k :: 0 <= k < |r| ==> r[k] == segments[k].confidence
  {
    seq(|segments|, k requires 0 <= k < |segments| => segments[k].confidence)
  }

  lemma ConfidencesAppend(a: seq<Segment>, b: seq<Segment>)
    ensures Confidences(a + b) == Confidences(a) + Confidences(b)
  {
  }

  function Texts(segments: seq<Segment>): (r: seq<string>)
    ensures |r| == |segments| && forall k :: 0 <= k < |r| ==> r[k] == segments[k].text
  {
    seq(|segments|, k requires 0 <= k < |segments| => segments[k].text)
  }

  lemma TextsAppend(a: seq<Segment>, b: seq<Segment>)
    ensures Texts(a + b) == Texts(a) + Texts(b)
  {
  }

  /** One entry appends at most one segment: when it is final and not blank,
      the segment of its trimmed transcript from the cursor to the context
      time over 1.5, labelled `speaker_1`, with the entry's confidence or
      0.85 for a confidence of 0, and the cursor moves to its end; any other
      entry changes nothing. */
  lemma TakeResultSpec(s: CaptureState, r: Recognized, contextTime: real)
    ensures var n := TakeResult(s, r, contextTime).state;
      var kept := r.isFinal && |Trim(r.transcript)| > 0;
      && |n.segments| == |s.segments| + (if kept then 1 else 0)
      && n.segments[..|s.segments|] == s.segments
      && Texts(n.segments) == Texts(s.segments) + (if kept then [Trim(r.transcript)] else [])
      && Confidences(n.segments) == Confidences(s.segments) + KeptConfidences([r])
      && (kept ==>
            && n.segments[|s.segments|] ==
                 Segment(Trim(r.transcript), s.startTime, contextTime / PlaybackRate, PlaceholderLabel,
                         if r.confidence == 0.0 then DefaultConfidence else r.confidence)
            && n.startTime == contextTime / PlaybackRate)
    ensures !(r.isFinal && |Trim(r.transcript)| > 0) ==> TakeResult(s, r, contextTime) == Next(s, [])
  {
    var n := TakeResult(s, r, contextTime).state;
    assert [r][..0] == [];
    if r.isFinal && |Trim(r.transcript)| > 0 {
      assert n.segments[..|s.segments|] == s.segments;
      TextsAppend(s.segments, [n.segments[|s.segments|]]);
      ConfidencesAppend(s.segments, [n.segments[|s.segments|]]);
      assert n.segments == s.segments + [n.segments[|s.segments|]];
    }
  }

  /** A batch of results appends one segment per final non-blank entry, in
      order, with its trimmed text and its stored confidence, labelled
      `speaker_1` and ending at the batch's context time over 1.5; the first
      starts at the old cursor and each later one where the previous ended,
      and the cursor ends at the last one's end. */
  lemma TakeResultsSpec(s: CaptureState, rs: seq<Recognized>, contextTime: real)
    ensures var n := TakeResults(s, rs, contextTime).state;
      && |n.segments| >= |s.segments| && n.segments[..|s.segments|] == s.segments
      && Texts(n.segments) == Texts(s.segments) + KeptTexts(rs)
      && Confidences(n.segments) == Confidences(s.segments) + KeptConfidences(rs)
      && (forall k :: |s.segments| <= k < |n.segments| ==>
            && n.segments[k].endTime == contextTime / PlaybackRate
            && n.segments[k].speakerLabel == PlaceholderLabel
            && n.segments[k].startTime == (if k == |s.segments| then s.startTime else contextTime / PlaybackRate))
      && n.startTime == (if |n.segments| > |s.segments| then contextTime / PlaybackRate else s.startTime)
  {
    TakeResultsTexts(s, rs, contextTime);
    TakeResultsFields(s, rs, contextTime);
  }

  /** The text half of TakeResultsSpec: the earlier segments stay and the
      texts of the new ones are the kept transcripts. */
  lemma {:induction false} TakeResultsTexts(s: CaptureState, rs: seq<Recognized>, contextTime: real)
    ensures var n := TakeResults(s, rs, contextTime).state;
      && |n.segments| >= |s.segments| && n.segments[..|s.segments|] == s.segments
      && Texts(n.segments) == Texts(s.segments) + KeptTexts(rs)
  {
    if |rs| > 0 {
      var prefix, last := rs[..|rs| - 1], rs[|rs| - 1];
      TakeResultsTexts(s, prefix, contextTime);
      var n := TakeResults(s, prefix, contextTime).state;
      TakeResultSpec(n, last, contextTime);
      var m := TakeResult(n, last, contextTime).state;
      assert TakeResults(s, rs, contextTime).state == m;
      assert m.segments[..|s.segments|] == n.segments[..|n.segments|][..|s.segments|];
    }
  }

  /** The other fields of TakeResultsSpec: confidences, labels, times and
      the cursor. */
  lemma {:induction false} TakeResultsFields(s: CaptureState, rs: seq<Recognized>, contextTime: real)
    ensures var n := TakeResults(s, rs, contextTime).state;
      && |n.segments| >= |s.segments|
      && Confidences(n.segments) == Confidences(s.segments) + KeptConfidences(rs)
      && (forall k :: |s.segments| <= k < |n.segments| ==>
            && n.segments[k].endTime == contextTime / PlaybackRate
            && n.segments[k].speakerLabel == PlaceholderLabel
            && n.segments[k].startTime == (if k == |s.segments| then s.startTime else contextTime / PlaybackRate))
      && n.startTime == (if |n.segments| > |s.segments| then contextTime / PlaybackRate else s.startTime)
  {
    if |rs| > 0 {
      var prefix, last := rs[..|rs| - 1], rs[|rs| - 1];
      TakeResultsFields(s, prefix, contextTime);
      var n := TakeResults(s, prefix, contextTime).state;
      TakeResultSpec(n, last, contextTime);
      var m := TakeResult(n, last, contextTime).state;
      assert TakeResults(s, rs, contextTime).state == m;
      assert KeptConfidences(rs) == KeptConfidences(prefix) + KeptConfidences([last]) by {
        assert [last][..0] == [];
      }
      assert forall k :: |s.segments| <= k < |n.segments| ==> m.segments[k] == n.segments[k];
    }
  }

  /** Blank and interim entries are skipped: a batch with nothing to keep
      leaves the state as it was, cursor included, and reports nothing. */
  lemma {:induction false} BlankResultsSkipped(s: CaptureState, rs: seq<Recognized>, contextTime: real)
    requires |KeptTexts(rs)| == 0
    ensures TakeResults(s, rs, contextTime) == Next(s, [])
  {
    if |rs| > 0 {
      var prefix, last := rs[..|rs| - 1], rs[|rs| - 1];
      assert |KeptTexts(prefix)| == 0;
      BlankResultsSkipped(s, prefix, contextTime);
    }
  }

  /** `noSpeechCount` counts every no-speech error of the run: results never
      reset it. */
  function NoSpeechErrors(events: seq<Event>): nat {
    if |events| == 0 then 0
    else (if events[0] == RecognitionError(NoSpeech) then 1 else 0) + NoSpeechErrors(events[1..])
  }

  lemma {:induction false} NoSpeechIsCumulative(s: CaptureState, events: seq<Event>)
    requires Valid(s)
    ensures Run(s, events).noSpeechCount == s.noSpeechCount + NoSpeechErrors(events)
    decreases |events|
  {
    if |events| > 0 {
      StepValid(s, events[0]);
      StepFrame(s, events[0]);
      NoSpeechIsCumulative(Step(s, events[0]).state, events[1..]);
    }
  }

  /** Thirty no-speech errors over the whole run, however far apart and
      whatever was recognised between them, stop the loop and settle it. */
  lemma NoSpeechCapEndsLoop(duration: real, events: seq<Event>)
    requires duration > 0.0 && NoSpeechErrors(events) >= MaxNoSpeech
    ensures !Run(Initial(duration), events).shouldContinue
    ensures !Run(Initial(duration), events).outcome.Pending?
  {
    NoSpeechIsCumulative(Initial(duration), events);
    RunValid(Initial(duration), events);
  }

  /** Network errors are retried without limit: any number of them in a
      row leaves a running loop running, unsettled and with its segments. */
  lemma {:induction false} NetworkRetriesUncapped(s: CaptureState, events: seq<Event>)
    requires Valid(s)
    requires forall k :: 0 <= k < |events| ==> events[k] == RecognitionError(Network)
    ensures Run(s, events).shouldContinue == s.shouldContinue
    ensures Run(s, events).outcome == s.outcome
    ensures Run(s, events).segments == s.segments
    ensures Run(s, events).noSpeechCount == s.noSpeechCount
    decreases |events|
  {
    if |events| > 0 {
      var t := Step(s, events[0]).state;
      StepValid(s, events[0]);
      NetworkErrorFrame(s);
      assert Run(s, events) == Run(t, events[1..]);
      NetworkRetriesUncapped(t, events[1..]);
    }
  }

  lemma NetworkErrorFrame(s: CaptureState)
    requires Valid(s)
    ensures var t := Step(s, RecognitionError(Network)).state;
      t.shouldContinue == s.shouldContinue && t.outcome == s.outcome
      && t.segments == s.segments && t.noSpeechCount == s.noSpeechCount
  {
  }

  /** Each network error schedules one 500 ms restart while running and
      does nothing else; when stopped it neither restarts nor resolves. */
  lemma NetworkErrorSpec(s: CaptureState)
    requires Valid(s)
    ensures s.shouldContinue ==> Step(s, RecognitionError(Network)).actions == [ScheduleRestart(s.nextTimerId, NetworkRetryMs)]
    ensures !s.shouldContinue ==> Step(s, RecognitionError(Network)).actions == []
  {
  }

  predicate Resolves(actions: seq<Action>) {
    exists k :: 0 <= k < |actions| && actions[k].Resolve?
  }

  /** Every progress report is at most 99, except a report of 100 that is
      immediately followed by a resolve. */
  predicate ReportsCapped(actions: seq<Action>) {
    forall k :: 0 <= k < |actions| && actions[k].Progress? ==>
      actions[k].percent <= 99.0 || (actions[k].percent == 100.0 && k + 1 < |actions| && actions[k + 1].Resolve?)
  }

  lemma ReportsCappedAppend(a: seq<Action>, b: seq<Action>)
    requires ReportsCapped(a) && ReportsCapped(b)
    requires |a| > 0 ==> !a[|a| - 1].Progress?
    ensures ReportsCapped(a + b)
  {
    var c := a + b;
    forall k | 0 <= k < |c| && c[k].Progress?
      ensures c[k].percent <= 99.0 || (c[k].percent == 100.0 && k + 1 < |c| && c[k + 1].Resolve?)
    {
      if k < |a| {
        assert c[k] == a[k];
        assert k + 1 < |a|;
        assert c[k + 1] == a[k + 1];
      } else {
        var j := k - |a|;
        assert c[k] == b[j];
        assert b[j].percent <= 99.0 || (b[j].percent == 100.0 && j + 1 < |b| && b[j + 1].Resolve?);
        if j + 1 < |b| { assert c[k + 1] == b[j + 1]; }
      }
    }
  }

  lemma {:induction false} TakeResultsReports(s: CaptureState, rs: seq<Recognized>, contextTime: real)
    ensures ReportsCapped(TakeResults(s, rs, contextTime).actions)
  {
    TakeResultsQuiet(s, rs, contextTime);
  }

  lemma ResolvingReports(s: CaptureState)
    ensures ReportsCapped(Resolving(s).actions)
  {
    var a := Resolving(s).actions;
    assert a[1] == Progress(100.0) && a[2].Resolve?;
  }

  lemma ErrorReports(s: CaptureState, kind: ErrorKind)
    ensures ReportsCapped(AfterError(s, kind).actions)
  {
    var t := s.(isRecognitionActive := false);
    match kind
    case NoSpeech =>
      var u := t.(noSpeechCount := t.noSpeechCount + 1);
      if !(u.noSpeechCount < MaxNoSpeech && u.shouldContinue) {
        ResolvingReports(u.(shouldContinue := false));
      }
    case Aborted =>
      if !t.shouldContinue { ResolvingReports(t); }
    case _ =>
  }

  lemma EndReports(s: CaptureState, contextTime: Option<real>)
    ensures ReportsCapped(AfterEnd(s, contextTime).actions)
  {
    var t := s.(isRecognitionActive := false);
    if !t.shouldContinue || (contextTime.Some? && contextTime.value >= t.duration * PlaybackRate - EndMargin) {
      ResolvingReports(t.(shouldContinue := false));
    }
  }

  lemma GraceReports(s: CaptureState)
    ensures ReportsCapped(AfterGrace(s).actions)
  {
    if s.graceArmed {
      var r := Resolving(s.(graceArmed := false));
      ResolvingReports(s.(graceArmed := false));
      ReportsCappedAppend(if s.isRecognitionActive then [StopRecognizer] else [], r.actions);
    }
  }

  /** Progress reports never exceed 99 except the report of 100 that comes
      right before a resolve. */
  lemma ProgressReports(s: CaptureState, e: Event)
    requires Valid(s)
    ensures ReportsCapped(Step(s, e).actions)
  {
    match e
    case Launch(startThrows) =>
      ReportsCappedAppend([StartSource], AfterStartRecognition(s, startThrows).actions);
    case RestartTimerFired(_) =>
    case RecognitionStarted =>
    case Results(results, resultIndex, contextTime) =>
      if contextTime.Some? {
        TakeResultsReports(s, Entries(results, resultIndex), contextTime.value);
      }
    case RecognitionError(kind) => ErrorReports(s, kind);
    case RecognitionEnded(contextTime) => EndReports(s, contextTime);
    case SourceEnded =>
    case GraceElapsed => GraceReports(s);
    case ProgressTick(_) =>
  }

  /** The error transitions: no-speech restarts after 100 ms below 30 errors
      while running, otherwise stops and resolves; aborted restarts after
      150 ms or resolves when stopped; not-allowed rejects, schedules
      nothing and leaves the loop running. */
  lemma ErrorSpec(s: CaptureState)
    requires Valid(s)
    ensures var n := Step(s, RecognitionError(NoSpeech));
      if s.noSpeechCount + 1 < MaxNoSpeech && s.shouldContinue
      then n.actions == [ScheduleRestart(s.nextTimerId, NoSpeechRetryMs)] && n.state.shouldContinue
      else !n.state.shouldContinue && Resolves(n.actions) && !n.state.outcome.Pending?
    ensures var n := Step(s, RecognitionError(Aborted));
      if s.shouldContinue then n.actions == [ScheduleRestart(s.nextTimerId, AbortedRetryMs)]
      else Resolves(n.actions) && !n.state.outcome.Pending?
    ensures var n := Step(s, RecognitionError(NotAllowed));
      !Restarts(n.actions) && n.state.shouldContinue == s.shouldContinue
      && (s.outcome.Pending? ==> n.state.outcome == Rejected(MicrophoneDeniedMessage))
  {
    var n := Step(s, RecognitionError(NoSpeech));
    if !(s.noSpeechCount + 1 < MaxNoSpeech && s.shouldContinue) {
      assert n.actions[2].Resolve?;
    }
    if !s.shouldContinue {
      assert Step(s, RecognitionError(Aborted)).actions[2].Resolve?;
    }
  }

  /** Recognition end restarts after 50 ms exactly while running and short
      of `duration * 1.5 - 0.3`; once stopped, or past that point, it stops
      and resolves. While running with the audio context released it only
      clears the active mark: nothing is scheduled and the promise is left
      as it was. */
  lemma EndSpec(s: CaptureState, contextTime: Option<real>)
    requires Valid(s)
    ensures var n := Step(s, RecognitionEnded(contextTime));
      if s.shouldContinue && contextTime.None?
      then n.actions == [] && n.state == s.(isRecognitionActive := false)
      else if s.shouldContinue && contextTime.value < s.duration * PlaybackRate - EndMargin
      then n.actions == [ScheduleRestart(s.nextTimerId, EndRetryMs)] && n.state.shouldContinue
      else !n.state.shouldContinue && Resolves(n.actions) && !n.state.outcome.Pending?
  {
    var n := Step(s, RecognitionEnded(contextTime));
    if !s.shouldContinue || (contextTime.Some? && contextTime.value >= s.duration * PlaybackRate - EndMargin) {
      assert n.actions[2].Resolve?;
    }
  }

  /** Once the audio context is released, results store nothing and report
      nothing, and an end of recognition while running neither restarts the
      recognizer nor settles the promise. */
  lemma ReleasedContextSpec(s: CaptureState, results: seq<Recognized>, resultIndex: nat)
    requires Valid(s)
    ensures Step(s, Results(results, resultIndex, None)) == Next(s, [])
    ensures s.shouldContinue ==>
      var n := Step(s, RecognitionEnded(None));
      !Restarts(n.actions) && n.state.outcome == s.outcome && n.state.segments == s.segments
      && !n.state.isRecognitionActive
  {
  }

  /** The source ending stops the loop and cancels only the latest restart
      timer; the grace timer then stops a still-active recognizer and
      resolves with progress 100. */
  lemma SourceEndSpec(s: CaptureState)
    requires Valid(s)
    ensures var n := Step(s, SourceEnded);
      !n.state.shouldContinue && n.state.graceArmed && n.actions[|n.actions| - 1] == ScheduleGrace(GraceMs)
      && (CancelRestart(s.nextTimerId - 1) in n.actions <==> s.restartTimeout == Some(s.nextTimerId - 1))
      && (s.restartTimeout.Some? ==> n.actions[0] == CancelRestart(s.restartTimeout.value))
    ensures var n := Step(Step(s, SourceEnded).state, GraceElapsed);
      (StopRecognizer in n.actions <==> s.isRecognitionActive)
      && Resolves(n.actions) && Progress(100.0) in n.actions && !n.state.outcome.Pending?
      && !n.state.shouldContinue
  {
    var n := Step(Step(s, SourceEnded).state, GraceElapsed);
    assert n.actions[|n.actions| - 1].Resolve?;
  }

  /** startRecognition does nothing when stopped or already active. */
  lemma StartRecognitionSpec(s: CaptureState, startThrows: bool)
    ensures !s.shouldContinue || s.isRecognitionActive ==> AfterStartRecognition(s, startThrows) == Next(s, [])
    ensures s.shouldContinue && !s.isRecognitionActive ==>
      AfterStartRecognition(s, startThrows).actions == [StartRecognizer]
      && AfterStartRecognition(s, startThrows).state.isRecognitionActive == !startThrows
  {
  }

  // ---------------------------------------------------------------- class

  /** The loop's closure variables as one object whose handlers update them
      in place. */
  class CaptureSession {
    var duration: real
    var startTime: real
    var shouldContinue: bool
    var isRecognitionActive: bool
    var noSpeechCount: nat
    var lastProgressUpdate: real
    var progressTicking: bool
    var restartTimeout: Option<nat>
    var nextTimerId: nat
    var graceArmed: bool
    var segments: seq<Segment>
    var outcome: Outcome

    function State(): CaptureState
      reads this
    {
      CaptureState(duration, startTime, shouldContinue, isRecognitionActive, noSpeechCount,
                   lastProgressUpdate, progressTicking, restartTimeout, nextTimerId, graceArmed,
                   segments, outcome)
    }

    constructor(duration: real)
      ensures State() == Initial(duration)
    {
      this.duration := duration;
      startTime := 0.0;
      shouldContinue := true;
      isRecognitionActive := false;
      noSpeechCount := 0;
      lastProgressUpdate := 0.0;
      progressTicking := true;
      restartTimeout := None;
      nextTimerId := 1;
      graceArmed := false;
      segments := [];
      outcome := Pending;
    }

    method ScheduleRestartTimer(delayMs: nat) returns (actions: seq<Action>)
      modifies this
      ensures Next(State(), actions) == Restart(old(State()), delayMs)
    {
      actions := [ScheduleRestart(nextTimerId, delayMs)];
      restartTimeout := Some(nextTimerId);
      nextTimerId := nextTimerId + 1;
    }

    method ResolveWithSegments() returns (actions: seq<Action>)
      modifies this
      ensures Next(State(), actions) == Resolving(old(State()))
    {
      progressTicking := false;
      actions := [StopProgressTicker, Progress(100.0), Resolve(segments)];
      if outcome.Pending? {
        outcome := Resolved(segments);
      }
    }

    method StartRecognition(startThrows: bool) returns (actions: seq<Action>)
      modifies this
      ensures Next(State(), actions) == AfterStartRecognition(old(State()), startThrows)
    {
      if !shouldContinue || isRecognitionActive {
        return [];
      }
      isRecognitionActive := true;
      actions := [StartRecognizer];
      if startThrows {
        isRecognitionActive := false;
      }
    }

    method OnLaunch(startThrows: bool) returns (actions: seq<Action>)
      modifies this
      ensures Next(State(), actions) == AfterLaunch(old(State()), startThrows)
    {
      var started := StartRecognition(startThrows);
      actions := [StartSource] + started;
    }

    method OnStart()
      modifies this
      ensures State() == old(State()).(isRecognitionActive := true)
    {
      isRecognitionActive := true;
    }

    /** The body of the `onresult` loop for one entry. */
    method TakeOne(r: Recognized, contextTime: real) returns (actions: seq<Action>)
      modifies this
      ensures Next(State(), actions) == TakeResult(old(State()), r, contextTime)
    {
      actions := [];
      if r.isFinal {
        var transcript := r.transcript;
        var confidence := ConfidenceOf(r.confidence);
        var currentTime := contextTime / PlaybackRate;
        if |Trim(transcript)| > 0 {
          var segment := Segment(Trim(transcript), startTime, currentTime, PlaceholderLabel, confidence);
          segments := segments + [segment];
          startTime := currentTime;
          actions := [SegmentReady(segment)];
        }
      }
    }

    method OnResult(results: seq<Recognized>, resultIndex: nat, contextTime: Option<real>) returns (actions: seq<Action>)
      modifies this
      ensures Next(State(), actions) == AfterResults(old(State()), results, resultIndex, contextTime)
    {
      ghost var s0 := State();
      actions := [];
      var i := resultIndex;
      while i < |results|
        invariant resultIndex <= |results| ==> resultIndex <= i <= |results|
        invariant resultIndex <= |results| && contextTime.Some? ==>
          Next(State(), actions) == TakeResults(s0, results[resultIndex..i], contextTime.value)
        invariant resultIndex > |results| || contextTime.None? ==> Next(State(), actions) == Next(s0, [])
      {
        if contextTime.None? {
          if results[i].isFinal {
            // `this.audioContext!` throws: the handler ends here
            return;
          }
        } else {
          var more := TakeOne(results[i], contextTime.value);
          actions := actions + more;
          TakeResultsSnoc(s0, results[resultIndex..i], results[i], contextTime.value);
          assert results[resultIndex..i] + [results[i]] == results[resultIndex..i + 1];
        }
        i := i + 1;
      }
      if resultIndex <= |results| {
        assert results[resultIndex..i] == results[resultIndex..];
      }
    }

    method OnError(kind: ErrorKind) returns (actions: seq<Action>)
      modifies this
      ensures Next(State(), actions) == AfterError(old(State()), kind)
    {
      isRecognitionActive := false;
      actions := [];
      match kind {
        case NoSpeech =>
          noSpeechCount := noSpeechCount + 1;
          if noSpeechCount < MaxNoSpeech && shouldContinue {
            actions := ScheduleRestartTimer(NoSpeechRetryMs);
          } else {
            shouldContinue := false;
            actions := ResolveWithSegments();
          }
        case Aborted =>
          if shouldContinue {
            actions := ScheduleRestartTimer(AbortedRetryMs);
          } else {
            actions := ResolveWithSegments();
          }
        case NotAllowed =>
          progressTicking := false;
          actions := [StopProgressTicker, Reject(MicrophoneDeniedMessage)];
          if outcome.Pending? {
            outcome := Rejected(MicrophoneDeniedMessage);
          }
        case Network =>
          if shouldContinue {
            actions := ScheduleRestartTimer(NetworkRetryMs);
          }
        case OtherError(_) =>
      }
    }

    method OnEnd(contextTime: Option<real>) returns (actions: seq<Action>)
      modifies this
      ensures Next(State(), actions) == AfterEnd(old(State()), contextTime)
    {
      isRecognitionActive := false;
      if shouldContinue && contextTime.None? {
        // `this.audioContext!` throws: the handler ends here
        actions := [];
      } else if shouldContinue && contextTime.value < duration * PlaybackRate - EndMargin {
        actions := ScheduleRestartTimer(EndRetryMs);
      } else {
        shouldContinue := false;
        actions := ResolveWithSegments();
      }
    }

    method OnSourceEnded() returns (actions: seq<Action>)
      modifies this
      ensures Next(State(), actions) == AfterSourceEnded(old(State()))
    {
      shouldContinue := false;
      actions := [];
      if restartTimeout.Some? {
        actions := [CancelRestart(restartTimeout.value)];
      }
      actions := actions + [ScheduleGrace(GraceMs)];
      graceArmed := true;
    }

    method OnGraceElapsed() returns (actions: seq<Action>)
      modifies this
      ensures Next(State(), actions) == AfterGrace(old(State()))
    {
      if !graceArmed {
        return [];
      }
      graceArmed := false;
      actions := [];
      if isRecognitionActive {
        actions := [StopRecognizer];
      }
      var resolved := ResolveWithSegments();
      actions := actions + resolved;
    }

    method OnProgressTick(contextTime: Option<real>) returns (actions: seq<Action>)
      requires duration > 0.0
      modifies this
      ensures Next(State(), actions) == AfterTick(old(State()), contextTime)
    {
      actions := [];
      if progressTicking && contextTime.Some? {
        var currentTime := contextTime.value / PlaybackRate;
        var progress := currentTime / duration * 100.0;
        if progress > 99.0 {
          progress := 99.0;
        }
        if progress - lastProgressUpdate >= 1.0 || progress >= 99.0 {
          lastProgressUpdate := progress;
          actions := [Progress(progress)];
        }
      }
    }
  }
}
