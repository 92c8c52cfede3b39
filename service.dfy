/** The resources AudioTranscriptionService holds across a transcription
    and its `stop()`, which releases them. The recognizer, the audio
    context and the media stream are opaque; the model records the calls
    made on them. */
module Service {
  import opened Wrappers
  import Capture

  /** A call on one of the held resources. */
  datatype ResourceCall = StopRecognition | CloseAudioContext | StopTrack(track: nat)

  /** What the service holds: whether a recognizer exists, `isProcessing`,
      whether `audioContext` is set, and the track count of `mediaStream`
      when it is set. */
  datatype Resources = Resources(hasRecognizer: bool, isProcessing: bool, contextOpen: bool, stream: Option<nat>)

  function TrackStops(n: nat): (r: seq<ResourceCall>)
    ensures |r| == n && forall k :: 0 <= k < n ==> r[k] == StopTrack(k)
  {
    if n == 0 then [] else TrackStops(n - 1) + [StopTrack(n - 1)]
  }

  /** The calls `stop()` makes, in order: the recognizer is stopped only
      while a transcription is marked as running, the context is closed if
      set, and every track of a set stream is stopped. */
  function StopCalls(r: Resources): seq<ResourceCall> {
    (if r.hasRecognizer && r.isProcessing then [StopRecognition] else [])
    + (if r.contextOpen then [CloseAudioContext] else [])
    + (if r.stream.Some? then TrackStops(r.stream.value) else [])
  }

  /** What `stop()` leaves behind. */
  function Stopped(r: Resources): Resources {
    Resources(r.hasRecognizer, r.isProcessing && !r.hasRecognizer, false, None)
  }

  /** The processing mark is only ever set while a recognizer exists. */
  predicate Consistent(r: Resources) {
    r.isProcessing ==> r.hasRecognizer
  }

  /** After `stop()` nothing is held and nothing is marked as running; a
      second `stop()` makes no call and changes nothing. */
  lemma StopIdempotent(r: Resources)
    requires Consistent(r)
    ensures var t := Stopped(r); !t.isProcessing && !t.contextOpen && t.stream.None?
    ensures StopCalls(Stopped(r)) == [] && Stopped(Stopped(r)) == Stopped(r)
  {
  }

  /** Which calls a stop makes: the recognizer stop exactly while a
      recognizer is running, the close exactly while the context is set,
      and one stop per track of a set stream. */
  lemma StopCallsSpec(r: Resources)
    ensures StopRecognition in StopCalls(r) <==> r.hasRecognizer && r.isProcessing
    ensures CloseAudioContext in StopCalls(r) <==> r.contextOpen
    ensures |StopCalls(r)| == (if r.hasRecognizer && r.isProcessing then 1 else 0)
      + (if r.contextOpen then 1 else 0) + (if r.stream.Some? then r.stream.value else 0)
  {
    var a := if r.hasRecognizer && r.isProcessing then [StopRecognition] else [];
    var b := if r.contextOpen then [CloseAudioContext] else [];
    var c := if r.stream.Some? then TrackStops(r.stream.value) else [];
    assert StopCalls(r) == a + b + c;
    assert forall k :: 0 <= k < |c| ==> c[k].StopTrack?;
    assert StopRecognition !in c && CloseAudioContext !in c;
  }

  /** `mediaStream.getTracks().forEach(track => track.stop())`. */
  method StopEachTrack(tracks: nat) returns (stops: seq<ResourceCall>)
    ensures stops == TrackStops(tracks)
  {
    stops := [];
    var t := 0;
    while t < tracks
      invariant 0 <= t <= tracks
      invariant stops == TrackStops(t)
    {
      stops := stops + [StopTrack(t)];
      t := t + 1;
    }
  }

  class TranscriptionService {
    var hasRecognizer: bool
    var isProcessing: bool
    var contextOpen: bool
    var stream: Option<nat>
    var calls: seq<ResourceCall>

    function Held(): Resources
      reads this
    {
      Resources(hasRecognizer, isProcessing, contextOpen, stream)
    }

    /** A fresh service: the recognizer exists when the platform offers one. */
    constructor(speechRecognitionAvailable: bool)
      ensures Held() == Resources(speechRecognitionAvailable, false, false, None) && calls == []
    {
      hasRecognizer := speechRecognitionAvailable;
      isProcessing := false;
      contextOpen := false;
      stream := None;
      calls := [];
    }

    /** The resource side of transcribeAudio up to the start of the capture
      loop: without a recognizer it throws and acquires nothing; otherwise
      it opens an audio context, which a decoding failure leaves open, and
      on success holds a stream of `tracks` tracks and marks processing. */
    method BeginTranscription(decoded: Result<real>, tracks: nat) returns (r: Result<real>)
      modifies this
      ensures r == (match Capture.Open(old(hasRecognizer), decoded)
                    case Ok(n) => Ok(n.state.duration)
                    case Err(e) => Err(e))
      ensures !old(hasRecognizer) ==> Held() == old(Held())
      ensures old(hasRecognizer) && decoded.Err? ==> Held() == old(Held()).(contextOpen := true)
      ensures old(hasRecognizer) && decoded.Ok? ==>
        Held() == old(Held()).(contextOpen := true, stream := Some(tracks), isProcessing := true)
      ensures calls == old(calls)
    {
      if !hasRecognizer {
        return Err(Capture.UnsupportedMessage);
      }
      contextOpen := true;
      match decoded {
        case Err(e) =>
          return Err(e);
        case Ok(duration) =>
          stream := Some(tracks);
          isProcessing := true;
          return Ok(duration);
      }
    }

    method Stop()
      modifies this
      ensures Held() == Stopped(old(Held()))
      ensures calls == old(calls) + StopCalls(old(Held()))
    {
      ghost var held := Held();
      var made: seq<ResourceCall> := [];
      if hasRecognizer && isProcessing {
        made := [StopRecognition];
        isProcessing := false;
      }
      if contextOpen {
        made := made + [CloseAudioContext];
        contextOpen := false;
      }
      if stream.Some? {
        var stops := StopEachTrack(stream.value);
        made := made + stops;
        stream := None;
      }
      assert made == StopCalls(held);
      calls := calls + made;
    }
  }
}
