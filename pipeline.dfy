/** startTranscription of the transcription panel: the glue that marks the
    recording as processing, runs capture and diarization, stores one row
    per segment (or a single placeholder row), records the final status and
    always releases the service. React state setters, status writes, row
    inserts and the completion callback are recorded as a trace of effects;
    the service is the object of the Service module. */
module Pipeline {
  import opened Wrappers
  import opened Transcript
  import Capture
  import Diarization
  import Service

  /** A decoded audio file: its duration in seconds, its first channel and
      its sample rate. */
  datatype Audio = Audio(duration: real, channelData: seq<real>, sampleRate: real)

  /** The values startTranscription writes to the `status` column of a
      recording: `processing`, `completed` and `error`. */
  datatype Status = Processing | Completed | Error

  /** An observable effect of startTranscription, in the order it happens. */
  datatype Effect =
    | SetProcessing(on: bool)
    | SetError(error: Option<string>)
    | SetProgress(percent: real)
    | WriteStatus(status: Status)
    | Diarize(segmentCount: nat)
    | Insert(rows: seq<Row>)
    | NotifyComplete
    | StopService

  const PlaceholderText: string := "[Аудио обработано, но речь не распознана. Попробуйте улучшить качество записи или используйте другой файл]"
  const PlaceholderConfidence: real := 0.5
  const DefaultError: string := "Произошла ошибка при обработке аудио"

  /** `err.message || 'Произошла ошибка при обработке аудио'`. */
  function ErrorText(message: string): (r: string)
    ensures r != []
    ensures message != [] ==> r == message
  {
    if message == [] then DefaultError else message
  }

  /** What transcribeAudio settles with: its up-front failures (no
      recognizer, or the service's own decoding failing), or else the
      settlement of the capture loop. */
  function Transcribed(speechAvailable: bool, serviceDecode: Result<real>, loop: Result<seq<Segment>>): Result<seq<Segment>> {
    match Capture.Open(speechAvailable, serviceDecode)
    case Err(e) => Err(e)
    case Ok(_) => loop
  }

  /** The row stored when nothing was recognised. */
  function PlaceholderRow(recordingId: string, duration: real): Row {
    Row(recordingId, PlaceholderLabel, PlaceholderText, 0.0, duration, PlaceholderConfidence)
  }

  /** The row of one diarized segment: `confidence || 0.85`. */
  function RowOf(recordingId: string, s: Segment): Row {
    Row(recordingId, s.speakerLabel, s.text, s.startTime, s.endTime, Capture.ConfidenceOf(s.confidence))
  }

  function RowsOf(recordingId: string, segs: seq<Segment>): (rows: seq<Row>)
    ensures |rows| == |segs| && forall i :: 0 <= i < |segs| ==> rows[i] == RowOf(recordingId, segs[i])
  {
    seq(|segs|, i requires 0 <= i < |segs| => RowOf(recordingId, segs[i]))
  }

  /** The rows inserted for the captured segments: the placeholder when
      there are none, otherwise one row per diarized segment. */
  function Rows(recordingId: string, audio: Audio, segs: seq<Segment>): seq<Row> {
    if |segs| == 0 then [PlaceholderRow(recordingId, audio.duration)]
    else RowsOf(recordingId, Diarization.Diarized(audio.channelData, audio.sampleRate, segs))
  }

  /** The catch block: the error is shown and the recording marked failed. */
  function Failure(message: string): seq<Effect> {
    [SetError(Some(ErrorText(message))), WriteStatus(Error)]
  }

  const Opening: seq<Effect> := [SetProcessing(true), SetError(None), SetProgress(0.0), WriteStatus(Processing)]
  const Closing: seq<Effect> := [SetProcessing(false), StopService]

  /** What follows the insert: completion when it reported no error,
      otherwise the catch block for that error. */
  function Settled(insertError: Option<string>): seq<Effect> {
    match insertError
    case Some(m) => Failure(m)
    case None => [WriteStatus(Completed), NotifyComplete]
  }

  /** The tail of the try block once segments are in hand: diarization when
      there are segments, the insert of `rows`, then what follows it. */
  function Stored(segs: seq<Segment>, rows: seq<Row>, insertError: Option<string>): seq<Effect> {
    (if |segs| > 0 then [Diarize(|segs|)] else []) + [Insert(rows)] + Settled(insertError)
  }

  /** The effects of the try and catch blocks after the processing status is
      written. */
  function Body(recordingId: string, audio: Result<Audio>, transcribed: Result<seq<Segment>>, insertError: Option<string>): seq<Effect> {
    match audio
    case Err(m) => Failure(m)
    case Ok(a) =>
      match transcribed
      case Err(m) => Failure(m)
      case Ok(segs) => Stored(segs, Rows(recordingId, a, segs), insertError)
  }

  lemma BodyOfStored(recordingId: string, a: Audio, segs: seq<Segment>, insertError: Option<string>)
    ensures Body(recordingId, Ok(a), Ok(segs), insertError) == Stored(segs, Rows(recordingId, a, segs), insertError)
  {
  }

  /** Every effect of one run of startTranscription, in order. */
  function Effects(recordingId: string, speechAvailable: bool, audio: Result<Audio>, serviceDecode: Result<real>,
                   loop: Result<seq<Segment>>, insertError: Option<string>): seq<Effect> {
    Opening + Body(recordingId, audio, Transcribed(speechAvailable, serviceDecode, loop), insertError) + Closing
  }

  /** Whether every step succeeded: the audio loaded, transcription settled
      with segments and the insert reported no error. */
  predicate Succeeds(speechAvailable: bool, audio: Result<Audio>, serviceDecode: Result<real>,
                     loop: Result<seq<Segment>>, insertError: Option<string>) {
    audio.Ok? && Transcribed(speechAvailable, serviceDecode, loop).Ok? && insertError.None?
  }

  /** What the service holds when `stop()` runs: nothing unless the audio
      loaded and transcribeAudio was entered with a recognizer. */
  function HeldAtStop(speechAvailable: bool, audio: Result<Audio>, serviceDecode: Result<real>, tracks: nat): Service.Resources {
    var idle := Service.Resources(speechAvailable, false, false, None);
    if audio.Err? || !speechAvailable then idle
    else if serviceDecode.Err? then idle.(contextOpen := true)
    else idle.(contextOpen := true, stream := Some(tracks), isProcessing := true)
  }

  /** The rows startTranscription inserts, diarizing only a non-empty
      segment list. */
  method BuildRows(recordingId: string, audio: Audio, segs: seq<Segment>) returns (rows: seq<Row>)
    ensures rows == Rows(recordingId, audio, segs)
  {
    if |segs| == 0 {
      rows := [PlaceholderRow(recordingId, audio.duration)];
    } else {
      var diarized := Diarization.PerformDiarization(audio.channelData, audio.sampleRate, segs);
      rows := RowsOf(recordingId, diarized);
    }
  }

  /** The insert and what follows it: a reported error is thrown into the
      catch block, otherwise the recording is marked completed and the
      completion callback runs. */
  method InsertRows(rows: seq<Row>, insertError: Option<string>) returns (effects: seq<Effect>)
    ensures effects == [Insert(rows)] + Settled(insertError)
  {
    effects := [Insert(rows)];
    if insertError.Some? {
      effects := effects + Failure(insertError.value);
    } else {
      effects := effects + [WriteStatus(Completed), NotifyComplete];
    }
  }

  /** Once segments are in hand: diarization is reported when there are
      any, then the rows are inserted and the outcome recorded. */
  method Store(segs: seq<Segment>, rows: seq<Row>, insertError: Option<string>) returns (effects: seq<Effect>)
    ensures effects == Stored(segs, rows, insertError)
  {
    effects := [];
    if |segs| > 0 {
      effects := effects + [Diarize(|segs|)];
    }
    var rest := InsertRows(rows, insertError);
    effects := effects + rest;
  }

  /** The try block after the processing status is written, with its catch:
      on loaded audio and settled segments the rows are inserted, and a
      failure at any step is shown and marks the recording failed. */
  method Attempt(recordingId: string, audio: Result<Audio>, transcribed: Result<seq<Segment>>,
                 insertError: Option<string>) returns (effects: seq<Effect>)
    ensures effects == Body(recordingId, audio, transcribed, insertError)
  {
    if audio.Err? {
      return Failure(audio.message);
    }
    if transcribed.Err? {
      return Failure(transcribed.message);
    }
    var a, segs := audio.value, transcribed.value;
    var rows := BuildRows(recordingId, a, segs);
    effects := Store(segs, rows, insertError);
    BodyOfStored(recordingId, a, segs, insertError);
  }

  /** startTranscription. `audio` is the outcome of fetching and decoding the
      recording, `serviceDecode` and `tracks` the service's own decoding and
      stream, `loop` the settlement of the capture loop, and `insertError`
      the error the row insert reports. */
  method StartTranscription(recordingId: string, speechAvailable: bool, audio: Result<Audio>,
                            serviceDecode: Result<real>, tracks: nat, loop: Result<seq<Segment>>,
                            insertError: Option<string>)
    returns (effects: seq<Effect>, service: Service.TranscriptionService)
    ensures effects == Effects(recordingId, speechAvailable, audio, serviceDecode, loop, insertError)
    ensures fresh(service)
    ensures service.Held() == Service.Stopped(HeldAtStop(speechAvailable, audio, serviceDecode, tracks))
    ensures service.calls == Service.StopCalls(HeldAtStop(speechAvailable, audio, serviceDecode, tracks))
  {
    effects := [SetProcessing(true), SetError(None), SetProgress(0.0)];
    service := new Service.TranscriptionService(speechAvailable);
    effects := effects + [WriteStatus(Processing)];
    assert effects == Opening;
    var transcribed := Transcribed(speechAvailable, serviceDecode, loop);
    if audio.Ok? {
      var begun := service.BeginTranscription(serviceDecode, tracks);
      transcribed := if begun.Err? then Err(begun.message) else loop;
    }
    assert transcribed == Transcribed(speechAvailable, serviceDecode, loop);
    assert service.Held() == HeldAtStop(speechAvailable, audio, serviceDecode, tracks) && service.calls == [];
    var body := Attempt(recordingId, audio, transcribed, insertError);
    effects := effects + body + [SetProcessing(false), StopService];
    service.Stop();
  }

  // ------------------------------------------------------------ properties

  /** The kinds of effect, one per constructor. */
  datatype Kind = ProcessingFlag | ErrorShown | StatusWrite | Diarizing | Inserting | Notifying | Stopping

  predicate OfKind(e: Effect, k: Kind) {
    match k
    case ProcessingFlag => e.SetProcessing?
    case ErrorShown => e.SetError?
    case StatusWrite => e.WriteStatus?
    case Diarizing => e.Diarize?
    case Inserting => e.Insert?
    case Notifying => e.NotifyComplete?
    case Stopping => e.StopService?
  }

  /** The effects of kind `k` in `es`, in order. */
  function Filter(es: seq<Effect>, k: Kind): (r: seq<Effect>)
    ensures |r| <= |es|
    ensures forall i :: 0 <= i < |r| ==> OfKind(r[i], k)
  {
    if |es| == 0 then []
    else (if OfKind(es[0], k) then [es[0]] else []) + Filter(es[1..], k)
  }

  /** An effect survives the filter exactly when it occurs in the trace and
      is of the kind asked for. */
  lemma {:induction false} FilterMembers(es: seq<Effect>, k: Kind, e: Effect)
    ensures e in Filter(es, k) <==> e in es && OfKind(e, k)
  {
    if |es| > 0 {
      FilterMembers(es[1..], k, e);
      assert es == [es[0]] + es[1..];
    }
  }

  lemma {:induction false} FilterAppend(a: seq<Effect>, b: seq<Effect>, k: Kind)
    ensures Filter(a + b, k) == Filter(a, k) + Filter(b, k)
  {
    if |a| > 0 {
      assert (a + b)[1..] == a[1..] + b;
      FilterAppend(a[1..], b, k);
    } else {
      assert a + b == b;
    }
  }

  lemma {:induction false} FilterPair(e: Effect, f: Effect, k: Kind)
    ensures Filter([e, f], k) == (if OfKind(e, k) then [e] else []) + (if OfKind(f, k) then [f] else [])
  {
    assert [e, f][1..] == [f];
    assert [f][1..] == [];
  }

  /** The message of the first step that failed, if any: loading the audio,
      transcribing it, or inserting the rows. */
  function FirstFailure(audio: Result<Audio>, transcribed: Result<seq<Segment>>, insertError: Option<string>): Option<string> {
    match audio
    case Err(m) => Some(m)
    case Ok(_) =>
      match transcribed
      case Err(m) => Some(m)
      case Ok(_) => insertError
  }

  /** What follows the insert, by kind: the error and the `error` status
      on a reported error, otherwise `completed` and the callback. */
  lemma SettledTrace(insertError: Option<string>, k: Kind)
    ensures Filter(Settled(insertError), k) ==
              (if insertError.Some? && k == ErrorShown then [SetError(Some(ErrorText(insertError.value)))] else [])
              + (if k == StatusWrite then [WriteStatus(if insertError.None? then Completed else Error)] else [])
              + (if insertError.None? && k == Notifying then [NotifyComplete] else [])
  {
    var settled := Settled(insertError);
    FilterPair(settled[0], settled[1], k);
    assert settled == [settled[0], settled[1]];
  }

  /** The effects of each kind once segments are in hand. */
  lemma StoredTrace(segs: seq<Segment>, rows: seq<Row>, insertError: Option<string>, k: Kind)
    ensures Filter(Stored(segs, rows, insertError), k) ==
              (if |segs| > 0 && k == Diarizing then [Diarize(|segs|)] else [])
              + (if k == Inserting then [Insert(rows)] else [])
              + ((if insertError.Some? && k == ErrorShown then [SetError(Some(ErrorText(insertError.value)))] else [])
                 + (if k == StatusWrite then [WriteStatus(if insertError.None? then Completed else Error)] else [])
                 + (if insertError.None? && k == Notifying then [NotifyComplete] else []))
  {
    var head := if |segs| > 0 then [Diarize(|segs|)] else [];
    FilterAppend(head + [Insert(rows)], Settled(insertError), k);
    FilterAppend(head, [Insert(rows)], k);
    SettledTrace(insertError, k);
    assert [Insert(rows)][1..] == [];
    if |segs| > 0 {
      assert head[1..] == [];
    }
  }

  /** The effects of each kind that the try and catch blocks produce, for
      any outcome of the steps. */
  lemma BodyTrace(recordingId: string, audio: Result<Audio>, transcribed: Result<seq<Segment>>,
                  insertError: Option<string>, k: Kind)
    ensures var failure := FirstFailure(audio, transcribed, insertError);
            var stored := audio.Ok? && transcribed.Ok?;
            Filter(Body(recordingId, audio, transcribed, insertError), k) ==
              (if stored && |transcribed.value| > 0 && k == Diarizing then [Diarize(|transcribed.value|)] else [])
              + (if stored && k == Inserting then [Insert(Rows(recordingId, audio.value, transcribed.value))] else [])
              + ((if failure.Some? && k == ErrorShown then [SetError(Some(ErrorText(failure.value)))] else [])
                 + (if k == StatusWrite then [WriteStatus(if failure.None? then Completed else Error)] else [])
                 + (if failure.None? && k == Notifying then [NotifyComplete] else []))
  {
    var failure := FirstFailure(audio, transcribed, insertError);
    if audio.Ok? && transcribed.Ok? {
      BodyOfStored(recordingId, audio.value, transcribed.value, insertError);
      StoredTrace(transcribed.value, Rows(recordingId, audio.value, transcribed.value), insertError, k);
    } else {
      FilterPair(SetError(Some(ErrorText(failure.value))), WriteStatus(Error), k);
    }
  }


  /** The effects of kind `k` in a whole run: those of the opening, of the
      try and catch blocks, and of the finally block. */
  lemma Framed(body: seq<Effect>, k: Kind)
    ensures Filter(Opening + body + Closing, k) == Filter(Opening, k) + Filter(body, k) + Filter(Closing, k)
  {
    FilterAppend(Opening + body, Closing, k);
    FilterAppend(Opening, body, k);
  }

  lemma OpeningClosing(k: Kind)
    ensures Filter(Opening, k) ==
              (if k == ProcessingFlag then [SetProcessing(true)] else [])
              + (if k == ErrorShown then [SetError(None)] else [])
              + (if k == StatusWrite then [WriteStatus(Processing)] else [])
    ensures Filter(Closing, k) ==
              (if k == ProcessingFlag then [SetProcessing(false)] else [])
              + (if k == Stopping then [StopService] else [])
  {
    FilterPair(SetProcessing(true), SetError(None), k);
    FilterPair(SetProgress(0.0), WriteStatus(Processing), k);
    FilterAppend([SetProcessing(true), SetError(None)], [SetProgress(0.0), WriteStatus(Processing)], k);
    assert Opening == [SetProcessing(true), SetError(None)] + [SetProgress(0.0), WriteStatus(Processing)];
    FilterPair(SetProcessing(false), StopService, k);
  }

  /** Kinds that only the try and catch blocks produce pass through the
      opening and the finally block unchanged. */
  lemma FramedQuiet(body: seq<Effect>, k: Kind)
    requires k == Diarizing || k == Inserting || k == Notifying
    ensures Filter(Opening + body + Closing, k) == Filter(body, k)
  {
    Framed(body, k);
    OpeningClosing(k);
  }

  /** The opening clears the error before anything the body shows. */
  lemma FramedError(body: seq<Effect>)
    ensures Filter(Opening + body + Closing, ErrorShown) == [SetError(None)] + Filter(body, ErrorShown)
  {
    Framed(body, ErrorShown);
    OpeningClosing(ErrorShown);
  }

  /** The opening writes `processing` before the body's one status write. */
  lemma FramedStatus(body: seq<Effect>, status: Status)
    requires Filter(body, StatusWrite) == [WriteStatus(status)]
    ensures Filter(Opening + body + Closing, StatusWrite) == [WriteStatus(Processing), WriteStatus(status)]
  {
    Framed(body, StatusWrite);
    OpeningClosing(StatusWrite);
  }

  /** Around a body that neither touches the flag nor stops the service,
      the flag is raised once and cleared once, and the run ends by
      clearing it and stopping the service. */
  lemma FramedFlag(body: seq<Effect>)
    requires Filter(body, ProcessingFlag) == [] && Filter(body, Stopping) == []
    ensures var es := Opening + body + Closing;
            Filter(es, ProcessingFlag) == [SetProcessing(true), SetProcessing(false)]
            && es[|es| - 2] == SetProcessing(false) && es[|es| - 1] == StopService
            && Filter(es, Stopping) == [StopService]
  {
    Framed(body, ProcessingFlag);
    Framed(body, Stopping);
    OpeningClosing(ProcessingFlag);
    OpeningClosing(Stopping);
  }

  /** The processing flag is raised once at the start and cleared once in
      the finally block, which ends every run by stopping the service. */
  lemma ProcessingTrace(recordingId: string, speechAvailable: bool, audio: Result<Audio>, serviceDecode: Result<real>,
                 loop: Result<seq<Segment>>, insertError: Option<string>)
    ensures var es := Effects(recordingId, speechAvailable, audio, serviceDecode, loop, insertError);
            Filter(es, ProcessingFlag) == [SetProcessing(true), SetProcessing(false)]
            && es[|es| - 2] == SetProcessing(false) && es[|es| - 1] == StopService
            && Filter(es, Stopping) == [StopService]
  {
    var t := Transcribed(speechAvailable, serviceDecode, loop);
    var body := Body(recordingId, audio, t, insertError);
    assert Filter(body, ProcessingFlag) == [] by {
      BodyTrace(recordingId, audio, t, insertError, ProcessingFlag);
    }
    assert Filter(body, Stopping) == [] by {
      BodyTrace(recordingId, audio, t, insertError, Stopping);
    }
    FramedFlag(body);
  }

  /** The error is cleared at the start and shown again only when a step
      failed: the message of the first failing step, or the default text
      when that message is empty. */
  lemma ErrorTrace(recordingId: string, speechAvailable: bool, audio: Result<Audio>, serviceDecode: Result<real>,
                 loop: Result<seq<Segment>>, insertError: Option<string>)
    ensures var failure := FirstFailure(audio, Transcribed(speechAvailable, serviceDecode, loop), insertError);
            Filter(Effects(recordingId, speechAvailable, audio, serviceDecode, loop, insertError), ErrorShown) ==
              [SetError(None)] + (if failure.Some? then [SetError(Some(ErrorText(failure.value)))] else [])
  {
    var t := Transcribed(speechAvailable, serviceDecode, loop);
    var body := Body(recordingId, audio, t, insertError);
    BodyErrorTrace(recordingId, audio, t, insertError);
    FramedError(body);
  }

  /** Inside the frame, the error is shown once, for the first failure. */
  lemma BodyErrorTrace(recordingId: string, audio: Result<Audio>, t: Result<seq<Segment>>, insertError: Option<string>)
    ensures var failure := FirstFailure(audio, t, insertError);
            Filter(Body(recordingId, audio, t, insertError), ErrorShown) ==
              (if failure.Some? then [SetError(Some(ErrorText(failure.value)))] else [])
  {
    BodyTrace(recordingId, audio, t, insertError, ErrorShown);
  }

  /** The status is written `processing` first and then `completed` exactly
      when every step succeeded, `error` otherwise. */
  lemma StatusTrace(recordingId: string, speechAvailable: bool, audio: Result<Audio>, serviceDecode: Result<real>,
                 loop: Result<seq<Segment>>, insertError: Option<string>)
    ensures Filter(Effects(recordingId, speechAvailable, audio, serviceDecode, loop, insertError), StatusWrite) ==
              [WriteStatus(Processing), WriteStatus(if Succeeds(speechAvailable, audio, serviceDecode, loop, insertError) then Completed else Error)]
  {
    var t := Transcribed(speechAvailable, serviceDecode, loop);
    var body := Body(recordingId, audio, t, insertError);
    var ok := Succeeds(speechAvailable, audio, serviceDecode, loop, insertError);
    assert Filter(body, StatusWrite) == [WriteStatus(if ok then Completed else Error)] by {
      BodyTrace(recordingId, audio, t, insertError, StatusWrite);
      SucceedsSpec(speechAvailable, audio, serviceDecode, loop, insertError);
    }
    FramedStatus(body, if ok then Completed else Error);
  }

  /** The completion callback runs once on success and never otherwise. */
  lemma NotifyTrace(recordingId: string, speechAvailable: bool, audio: Result<Audio>, serviceDecode: Result<real>,
                 loop: Result<seq<Segment>>, insertError: Option<string>)
    ensures Filter(Effects(recordingId, speechAvailable, audio, serviceDecode, loop, insertError), Notifying) ==
              (if Succeeds(speechAvailable, audio, serviceDecode, loop, insertError) then [NotifyComplete] else [])
  {
    var t := Transcribed(speechAvailable, serviceDecode, loop);
    var body := Body(recordingId, audio, t, insertError);
    var ok := Succeeds(speechAvailable, audio, serviceDecode, loop, insertError);
    assert Filter(body, Notifying) == (if ok then [NotifyComplete] else []) by {
      BodyTrace(recordingId, audio, t, insertError, Notifying);
      SucceedsSpec(speechAvailable, audio, serviceDecode, loop, insertError);
    }
    FramedQuiet(body, Notifying);
  }

  /** Diarization runs exactly when the audio loaded and transcription
      settled with at least one segment. */
  lemma DiarizeTrace(recordingId: string, speechAvailable: bool, audio: Result<Audio>, serviceDecode: Result<real>,
                 loop: Result<seq<Segment>>, insertError: Option<string>)
    ensures var t := Transcribed(speechAvailable, serviceDecode, loop);
            Filter(Effects(recordingId, speechAvailable, audio, serviceDecode, loop, insertError), Diarizing) ==
              (if audio.Ok? && t.Ok? && |t.value| > 0 then [Diarize(|t.value|)] else [])
  {
    var t := Transcribed(speechAvailable, serviceDecode, loop);
    var body := Body(recordingId, audio, t, insertError);
    assert Filter(body, Diarizing) == (if audio.Ok? && t.Ok? && |t.value| > 0 then [Diarize(|t.value|)] else []) by {
      BodyTrace(recordingId, audio, t, insertError, Diarizing);
    }
    FramedQuiet(body, Diarizing);
  }

  /** The rows are inserted exactly once when the audio loaded and
      transcription settled, whether or not it captured anything. */
  lemma InsertTrace(recordingId: string, speechAvailable: bool, audio: Result<Audio>, serviceDecode: Result<real>,
                 loop: Result<seq<Segment>>, insertError: Option<string>)
    ensures var t := Transcribed(speechAvailable, serviceDecode, loop);
            Filter(Effects(recordingId, speechAvailable, audio, serviceDecode, loop, insertError), Inserting) ==
              (if audio.Ok? && t.Ok? then [Insert(Rows(recordingId, audio.value, t.value))] else [])
  {
    var t := Transcribed(speechAvailable, serviceDecode, loop);
    var body := Body(recordingId, audio, t, insertError);
    assert Filter(body, Inserting) == (if audio.Ok? && t.Ok? then [Insert(Rows(recordingId, audio.value, t.value))] else []) by {
      BodyTrace(recordingId, audio, t, insertError, Inserting);
    }
    FramedQuiet(body, Inserting);
  }

  /** A run succeeds exactly when no step reports a failure. */
  lemma SucceedsSpec(speechAvailable: bool, audio: Result<Audio>, serviceDecode: Result<real>,
                     loop: Result<seq<Segment>>, insertError: Option<string>)
    ensures Succeeds(speechAvailable, audio, serviceDecode, loop, insertError)
            <==> FirstFailure(audio, Transcribed(speechAvailable, serviceDecode, loop), insertError).None?
  {
  }


  /** Every stored field of the relabelled segments: one row per segment,
      in order, with its text and times, its new label, and a zero
      confidence replaced by the default. */
  predicate RowsOfSegments(recordingId: string, rows: seq<Row>, segs: seq<Segment>) {
    |rows| == |segs| &&
    forall i :: 0 <= i < |segs| ==>
      && rows[i].recordingId == recordingId
      && rows[i].text == segs[i].text
      && rows[i].startTime == segs[i].startTime
      && rows[i].endTime == segs[i].endTime
      && rows[i].speakerLabel in {InterviewerLabel, IntervieweeLabel}
      && rows[i].confidence == (if segs[i].confidence == 0.0 then Capture.DefaultConfidence else segs[i].confidence)
  }

  lemma RowsOfRelabelled(recordingId: string, d: seq<Segment>, segs: seq<Segment>)
    requires Diarization.SameExceptLabels(d, segs)
    requires Diarization.LabelsIn(d, {InterviewerLabel, IntervieweeLabel})
    ensures RowsOfSegments(recordingId, RowsOf(recordingId, d), segs)
  {
    var rows := RowsOf(recordingId, d);
    forall i | 0 <= i < |segs|
      ensures rows[i].text == segs[i].text && rows[i].startTime == segs[i].startTime
      ensures rows[i].endTime == segs[i].endTime && rows[i].speakerLabel in {InterviewerLabel, IntervieweeLabel}
      ensures rows[i].confidence == (if segs[i].confidence == 0.0 then Capture.DefaultConfidence else segs[i].confidence)
    {
      assert d[i].speakerLabel in {InterviewerLabel, IntervieweeLabel};
    }
  }

  /** The inserted rows: the placeholder row spanning the whole audio when
      nothing was captured; otherwise one row per captured segment, in
      order, keeping its text and times, labelled interviewer or
      interviewee, with a zero confidence replaced by the default. No
      stored row has a zero confidence. */
  lemma RowsSpec(recordingId: string, audio: Audio, segs: seq<Segment>)
    ensures |segs| == 0 ==>
              Rows(recordingId, audio, segs) == [Row(recordingId, PlaceholderLabel, PlaceholderText, 0.0, audio.duration, PlaceholderConfidence)]
    ensures |segs| > 0 ==> RowsOfSegments(recordingId, Rows(recordingId, audio, segs), segs)
    ensures forall i :: 0 <= i < |Rows(recordingId, audio, segs)| ==>
              Rows(recordingId, audio, segs)[i].recordingId == recordingId && Rows(recordingId, audio, segs)[i].confidence != 0.0
  {
    if |segs| > 0 {
      var d := Diarization.Diarized(audio.channelData, audio.sampleRate, segs);
      Diarization.DiarizedShape(audio.channelData, audio.sampleRate, segs);
      RowsOfRelabelled(recordingId, d, segs);
    }
  }

  /** Whatever happened, the finally block leaves the service holding
      nothing: no running transcription, no audio context, no stream. It
      closes the context exactly when transcribeAudio was entered with a
      recognizer, and stops recognition exactly when capture started. */
  lemma RunReleasesService(speechAvailable: bool, audio: Result<Audio>, serviceDecode: Result<real>, tracks: nat)
    ensures var h := Service.Stopped(HeldAtStop(speechAvailable, audio, serviceDecode, tracks));
            !h.isProcessing && !h.contextOpen && h.stream.None?
    ensures var calls := Service.StopCalls(HeldAtStop(speechAvailable, audio, serviceDecode, tracks));
            (Service.CloseAudioContext in calls <==> audio.Ok? && speechAvailable)
            && (Service.StopRecognition in calls <==> audio.Ok? && speechAvailable && serviceDecode.Ok?)
            && |calls| == (if audio.Ok? && speechAvailable then 1 else 0)
                          + (if audio.Ok? && speechAvailable && serviceDecode.Ok? then 1 + tracks else 0)
  {
    var held := HeldAtStop(speechAvailable, audio, serviceDecode, tracks);
    assert Service.Consistent(held);
    Service.StopIdempotent(held);
    Service.StopCallsSpec(held);
  }

}
