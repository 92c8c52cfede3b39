# Interview transcription core in Dafny

This project models the logic of a browser app that transcribes recorded
interviews. The app has three parts:

- **Capture loop.** `AudioTranscriptionService.transcribeAudio` plays the
  recording into the Web Speech recognizer and collects the final results
  as timestamped segments. It restarts the recognizer after errors and
  after each end of recognition.
- **Diarization.** `performDiarization` works out who speaks in each
  segment:
  - it extracts features from each segment's window of samples: energy,
    a lag-search pitch estimate, and the zero-crossing rate;
  - it splits the segments into two groups with k-means;
  - the group with the lower mean pitch is labelled `interviewer`, the
    other `interviewee`;
  - a smoothing pass absorbs short, isolated label flips.
- **Around them.** `startTranscription` of the transcription panel stores
  the resulting rows and records the recording's status. The export
  helpers turn stored rows into a text report, SubRip subtitles, or a
  JSON document.

Modules, one per part of the program:

| module | file | models |
|---|---|---|
| `Wrappers` | wrappers.dfy | `Option` and the `Result` of an operation that can throw |
| `Numbers` | numbers.dfy | JavaScript numbers on the diarization path: exact reals plus the NaN of `0/0` |
| `Transcript` | transcript.dfy | `TranscriptionSegment`, a stored transcription row, and the `trim`, `split`, `join` and `slice` built-ins |
| `Features` | features.dfy | `calculateZeroCrossingRate`, `calculateEnergy`, `estimatePitch` |
| `Clustering` | clustering.dfy | `kMeansClustering`: normalisation, assignment rounds, early stop |
| `Diarization` | diarization.dfy | `performDiarization` and `smoothSpeakerTransitions` |
| `Capture` | capture.dfy | the `transcribeAudio` handlers as a transition function, and a `CaptureSession` class whose handler methods update its fields |
| `Service` | service.dfy | the resources the service holds, and `stop()` |
| `Export` | export.dfy | `formatTime`, `formatSRTTime`, `getSpeakerName`, and the content of `exportToText`, `exportToSRT` and `exportToJSON` |
| `Pipeline` | pipeline.dfy | `startTranscription` as a trace of its effects |

Code that loops and updates state is modelled as methods, and each method
is proved equal to a specification function. The examples are the feature
loops, the k-means rounds, the in-place smoothing pass, the capture
handlers, `stop()`, the export loops and `startTranscription`. The
properties are then proved about those functions.

In the capture loop, each event is one transition:

- recognition results, recognizer errors, recognition end, the source
  ending, and timers firing;
- a transition returns the new closure variables and the calls the
  handler made.

Timer delays are labels on the actions that schedule them. The promise
keeps its first settlement.

The pipeline is modelled as follows:

- the page's effects are one trace:
  - the React state setters;
  - the status writes to the `audio_recordings` table;
  - the row insert;
  - the completion callback;
  - the service stop;
- the outcomes of the steps are parameters: fetching and decoding the
  audio, the service's own decoding, the capture loop's settlement, and
  the insert's reported error;
- the service is a real `Service.TranscriptionService` object.

## Model

| member | source | states |
|---|---|---|
| Features.CrossingsBound | src/services/audioTranscription.ts:344-352 | a window of n samples has at most n - 1 sign changes between neighbours |
| Features.CrossingsOfRamp | src/services/audioTranscription.ts:344-352 | a non-decreasing window crosses once if it starts below 0 and ends at or above 0, and otherwise not at all |
| Features.RateBounds | src/services/audioTranscription.ts:344-352 | the zero-crossing rate of a non-empty window is a number in [0, 1) |
| Features.CalculateZeroCrossingRate | src/services/audioTranscription.ts:344-352 | the counting loop returns crossings / length, and NaN for an empty window |
| Features.SumOfSquaresOfSilence | src/services/audioTranscription.ts:354-360 | the running sum of squares is non-negative, and 0 on an all-zero prefix |
| Features.EnergyOfSilence | src/services/audioTranscription.ts:354-360 | a non-empty window's mean square is a non-negative number, and exactly 0 on silence |
| Features.CalculateEnergy | src/services/audioTranscription.ts:354-360 | the accumulation loop returns the mean square, and NaN for an empty window |
| Features.PitchBuffer | src/services/audioTranscription.ts:363-364 | the search buffer is the first min(len, 2048) samples |
| Features.ScanFindsEarliestBest | src/services/audioTranscription.ts:366-380 | the lag search keeps the earliest lag whose positive score is maximal, replacing it only on a strictly larger score |
| Features.BestLagSpec | src/services/audioTranscription.ts:362-380 | the chosen lag is 0 or lies in [20, min(len, 2048) / 2), and it is the earliest lag with the maximal positive score |
| Features.PitchSpec | src/services/audioTranscription.ts:382 | the pitch is sampleRate when the lag is 0, and otherwise sampleRate / lag with lag >= 20 |
| Features.EstimatePitch | src/services/audioTranscription.ts:362-383 | the nested loops compute that pitch |
| Features.ExtractFeatures | src/services/audioTranscription.ts:229-233 | one window's energy, pitch and rate |
| Clustering.MinMaxBound | src/services/audioTranscription.ts:265-267 | over finite values, `Math.min`/`Math.max` are finite and bound every value |
| Clustering.MinMaxOfNaN | src/services/audioTranscription.ts:265-267 | one NaN makes the min and the max NaN |
| Clustering.MinIsAValue | src/services/audioTranscription.ts:266 | over finite values the minimum is one of the values |
| Clustering.Range | src/services/audioTranscription.ts:268 | `(max - min) \|\| 1` is never 0 |
| Clustering.Normalize | src/services/audioTranscription.ts:265-270 | same length; all NaN once a value is NaN; otherwise in [0, 1], order-preserving, and all 0 for a constant dimension |
| Clustering.NormalizeFacts | src/services/audioTranscription.ts:265-270 | the facts behind Normalize's contract: a finite or NaN minimum, values in [0, 1], order kept |
| Clustering.RangeFacts | src/services/audioTranscription.ts:266-268 | every finite value lies between min and min + range, and range > 0 |
| Clustering.ConstantMin | src/services/audioTranscription.ts:266 | the minimum of a constant run is its value |
| Clustering.Points | src/services/audioTranscription.ts:272-274 | one normalised point per feature vector |
| Clustering.Assign | src/services/audioTranscription.ts:286-304 | an assignment pass puts each index below n in exactly one cluster |
| Clustering.AssignSpec | src/services/audioTranscription.ts:286-304 | a pass partitions the indices into two ascending lists; index i goes to cluster1 exactly when its distance to centroid1 is strictly smaller, so ties and NaN distances go to cluster2 |
| Clustering.AssignOfTies | src/services/audioTranscription.ts:299-303 | when no point is strictly nearer centroid1, every index is in cluster2 |
| Clustering.Rounds | src/services/audioTranscription.ts:282-321 | the rounds return index lists below the point count |
| Clustering.RoundsPartition | src/services/audioTranscription.ts:282-321 | after at most 10 rounds, and also on an early break, the result partitions the indices |
| Clustering.Clusters | src/services/audioTranscription.ts:261-263 | fewer than 2 vectors give `([0], [])`; otherwise the lists stay within range |
| Clustering.ClustersPartition | src/services/audioTranscription.ts:276-321 | for n >= 2, every index 0..n-1 appears exactly once, and each cluster is ascending |
| Clustering.TiesEndInSecondCluster | src/services/audioTranscription.ts:306 | a round that leaves cluster1 empty ends the loop, and the partition with the empty cluster is returned |
| Clustering.NaNFeatureEndsInSecondCluster | src/services/audioTranscription.ts:272-306 | a NaN energy or rate makes every distance NaN, so every index ends in cluster2 |
| Clustering.EqualSeedsEndInSecondCluster | src/services/audioTranscription.ts:276-277 | equal seeds at index 0 and floor(n/2) put every index in cluster2 |
| Clustering.AssignRound | src/services/audioTranscription.ts:283-304 | the `forEach` pass computes Assign |
| Clustering.KMeansClustering | src/services/audioTranscription.ts:257-322 | the round loop computes Clusters: `([0], [])` below 2 vectors, a partition otherwise |
| Diarization.SmoothStep | src/services/audioTranscription.ts:329-338 | one step changes only the label at i |
| Diarization.SmoothedUpTo | src/services/audioTranscription.ts:329-339 | the pass so far changes only labels, leaves positions from i on and the first one untouched |
| Diarization.Smoothed | src/services/audioTranscription.ts:324-341 | lists shorter than 3 are returned as they are; only labels change; the first and last entries never change |
| Diarization.SmoothedPrefixFrozen | src/services/audioTranscription.ts:329 | positions the scan has passed are final |
| Diarization.SmoothedAt | src/services/audioTranscription.ts:330-337 | position i takes its already-smoothed left neighbour's label exactly when that label equals the next label, differs from label i, and the text splits into fewer than 3 pieces at spaces |
| Diarization.NoShortFlipRemains | src/services/audioTranscription.ts:329-339 | no short flip survives the pass |
| Diarization.SmoothedUpToOfStable | src/services/audioTranscription.ts:329-339 | a list with no short flip is left unchanged |
| Diarization.SmoothedIdempotent | src/services/audioTranscription.ts:324-341 | smoothing twice is smoothing once |
| Diarization.SmoothedUpToKeepsLabels | src/services/audioTranscription.ts:336 | the pass only copies existing labels |
| Diarization.SmoothedKeepsLabels | src/services/audioTranscription.ts:324-341 | every output label was an input label |
| Diarization.SmoothSpeakerTransitions | src/services/audioTranscription.ts:324-341 | the in-place loop over an array copy computes Smoothed |
| Diarization.SmoothPass | src/services/audioTranscription.ts:329-339 | the loop over positions 1 to length-2 leaves the array holding SmoothedUpTo of its old contents at the last position |
| Diarization.SmoothAt | src/services/audioTranscription.ts:330-338 | one iteration changes the array exactly as SmoothStep: the label at i takes the previous label on a short flip, nothing else changes |
| Diarization.FeaturesOf | src/services/audioTranscription.ts:224-234 | one feature vector per segment |
| Diarization.MeanPitch | src/services/audioTranscription.ts:238-239 | the mean pitch is a number exactly when the cluster is non-empty, and NaN otherwise |
| Diarization.PickSpec | src/services/audioTranscription.ts:241-242 | cluster1 is the interviewer's exactly when both clusters are non-empty and its mean pitch is strictly lower; otherwise (ties, empty clusters) cluster2 is |
| Diarization.ClustersDistinct | src/services/audioTranscription.ts:236 | the two clusters of a non-empty list differ |
| Diarization.Labelled | src/services/audioTranscription.ts:244-252 | only labels change; index i is `interviewer` exactly when it is in the interviewer cluster, else `interviewee` |
| Diarization.DiarizedShape | src/services/audioTranscription.ts:213-254 | same length and order, only labels differ, and every label of a non-empty result is `interviewer` or `interviewee` |
| Diarization.SingleSegmentIsInterviewee | src/services/audioTranscription.ts:238-247 | a lone segment is labelled `interviewee`, because the empty cluster's NaN mean wins the comparison |
| Diarization.EmptyWindowMakesAllInterviewer | src/services/audioTranscription.ts:225-247 | a segment with an empty sample window labels every segment `interviewer` |
| Diarization.NaNFeatureMakesAllInterviewer | src/services/audioTranscription.ts:225-247 | a NaN energy puts every index in the interviewer cluster |
| Diarization.AllInterviewerDiarized | src/services/audioTranscription.ts:213-254 | when the interviewer cluster holds every index, the result has one segment per input, all labelled `interviewer` |
| Diarization.PerformDiarization | src/services/audioTranscription.ts:213-255 | the extraction loop, clustering, role choice, labelling and smoothing compute Diarized; an empty list is returned unchanged |
| Capture.Open | src/services/audioTranscription.ts:31-43 | no recognizer throws the unsupported message; a decoding failure passes on; otherwise 10% is reported and the loop starts |
| Capture.TakeResultsSnoc | src/services/audioTranscription.ts:79-102 | handling one more entry extends the state and actions of the entries before it |
| Capture.Texts | src/services/audioTranscription.ts:87 | the texts of the segments, in order |
| Capture.ContiguousAppend | src/services/audioTranscription.ts:86-95 | a segment starting at the cursor keeps the segment list contiguous |
| Capture.InitialValid | src/services/audioTranscription.ts:58-62 | the loop starts in a valid state |
| Capture.TakeResultValid | src/services/audioTranscription.ts:80-100 | taking a result keeps the state valid |
| Capture.TakeResultsValid | src/services/audioTranscription.ts:79-102 | a batch of results keeps the state valid |
| Capture.ResolvingValid | src/services/audioTranscription.ts:135-138 | resolving a stopped loop restores validity |
| Capture.RestartValid | src/services/audioTranscription.ts:131-133 | scheduling a restart keeps validity |
| Capture.ErrorValid | src/services/audioTranscription.ts:124-160 | every error kind keeps validity |
| Capture.EndValid | src/services/audioTranscription.ts:166-179 | recognition end keeps validity |
| Capture.GraceValid | src/services/audioTranscription.ts:186-197 | the grace timer keeps validity |
| Capture.TickValid | src/services/audioTranscription.ts:110-122 | a progress tick keeps validity |
| Capture.StepValid | src/services/audioTranscription.ts:78-205 | every transition keeps the segments contiguous, starting at 0, each made of trimmed non-blank `speaker_1` text with non-zero confidence; 30 no-speech errors leave the loop stopped and settled; a resolved loop is stopped; the ticker runs exactly while the promise is pending; progress stays at or below 99 |
| Capture.RunValid | src/services/audioTranscription.ts:78-205 | any sequence of events keeps the state valid |
| Capture.StepFrame | src/services/audioTranscription.ts:107-128 | the no-speech counter grows by one exactly on a no-speech error, a stopped loop stays stopped, and a settled promise keeps its outcome |
| Capture.ErrorFrame | src/services/audioTranscription.ts:124-160 | the same for the error handler |
| Capture.SettledIsFinal | src/services/audioTranscription.ts:105-206 | the first resolve or reject wins, whatever follows |
| Capture.StoppedStaysStopped | src/services/audioTranscription.ts:65-198 | a stopped loop neither schedules a restart nor starts the recognizer |
| Capture.TakeResultsQuiet | src/services/audioTranscription.ts:78-103 | results touch only the segments and the cursor, and emit only segment notifications |
| Capture.TextsAppend | src/services/audioTranscription.ts:94 | the texts of appended segments follow the earlier ones |
| Capture.TakeResultSpec | src/services/audioTranscription.ts:80-100 | a final non-blank entry appends exactly the segment of its trimmed transcript from the cursor to context time / 1.5, labelled `speaker_1`, with the entry's confidence, or 0.85 when it is 0, and moves the cursor to its end; any other entry changes nothing |
| Capture.TakeResultsSpec | src/services/audioTranscription.ts:79-102 | a batch keeps the earlier segments and appends one segment per final non-blank entry, in order: its trimmed text, its confidence with 0 replaced by 0.85, the `speaker_1` label, ending at context time / 1.5, the first starting at the old cursor and each later one where the previous ended; the cursor ends at the last end |
| Capture.TakeResultsTexts | src/services/audioTranscription.ts:79-102 | a batch keeps the earlier segments and the new segments' texts are the kept trimmed transcripts |
| Capture.TakeResultsFields | src/services/audioTranscription.ts:79-102 | the new segments' confidences are the kept confidences with 0 replaced by 0.85; their labels, start and end times and the final cursor are as the loop sets them |
| Capture.BlankResultsSkipped | src/services/audioTranscription.ts:80-85 | a batch with nothing to keep leaves the state, cursor included, as it was and reports nothing |
| Capture.NoSpeechIsCumulative | src/services/audioTranscription.ts:107-128 | the no-speech counter counts every no-speech error of the run; results never reset it |
| Capture.NoSpeechCapEndsLoop | src/services/audioTranscription.ts:127-139 | 30 no-speech errors over a run, however spread out, stop and settle the loop |
| Capture.NetworkRetriesUncapped | src/services/audioTranscription.ts:153-158 | any number of network errors leave a running loop running and unsettled, with its segments |
| Capture.NetworkErrorFrame | src/services/audioTranscription.ts:153-158 | one network error changes neither the stop flag, the outcome, the segments nor the counter |
| Capture.NetworkErrorSpec | src/services/audioTranscription.ts:153-158 | a network error schedules one 500 ms restart while running, and does nothing when stopped |
| Capture.ReportsCappedAppend | src/services/audioTranscription.ts:113-119 | capped progress reports stay capped when joined |
| Capture.TakeResultsReports | src/services/audioTranscription.ts:78-103 | results report no progress |
| Capture.ResolvingReports | src/services/audioTranscription.ts:136-138 | the report of 100 is immediately followed by the resolve |
| Capture.ErrorReports | src/services/audioTranscription.ts:124-160 | error handling reports 100 only right before resolving |
| Capture.EndReports | src/services/audioTranscription.ts:166-179 | the same for recognition end |
| Capture.GraceReports | src/services/audioTranscription.ts:186-197 | the same for the grace timer |
| Capture.ProgressReports | src/services/audioTranscription.ts:110-195 | every progress report is at most 99, except a 100 that is immediately followed by a resolve |
| Capture.ErrorSpec | src/services/audioTranscription.ts:124-152 | no-speech restarts after 100 ms while running and below 30 errors, and otherwise stops and resolves; aborted restarts after 150 ms, or resolves when stopped; not-allowed rejects with the permission message, schedules nothing and leaves the stop flag as it was |
| Capture.EndSpec | src/services/audioTranscription.ts:166-179 | recognition end restarts after 50 ms exactly while running and while context time < duration * 1.5 - 0.3; while running with the audio context released it only clears the active mark; otherwise it stops and resolves |
| Capture.ReleasedContextSpec | src/services/audioTranscription.ts:78-103 | once `stop()` has released the audio context, results change nothing, and an end of recognition while running neither restarts the recognizer nor settles the promise |
| Capture.SourceEndSpec | src/services/audioTranscription.ts:181-198 | the source ending stops the loop, cancels exactly the latest restart timer and arms an 800 ms timer; that timer stops an active recognizer, reports 100 and resolves |
| Capture.StartRecognitionSpec | src/services/audioTranscription.ts:64-76 | startRecognition does nothing when stopped or already active; otherwise it starts the recognizer and stays marked active unless the start throws |
| Capture.CaptureSession.constructor | src/services/audioTranscription.ts:58-108 | the session starts in the initial loop state |
| Capture.CaptureSession.ScheduleRestartTimer | src/services/audioTranscription.ts:131-133 | the fields and the call match the restart transition |
| Capture.CaptureSession.ResolveWithSegments | src/services/audioTranscription.ts:136-138 | the fields and the calls match the resolving transition |
| Capture.CaptureSession.StartRecognition | src/services/audioTranscription.ts:64-76 | the fields and the call match startRecognition |
| Capture.CaptureSession.OnLaunch | src/services/audioTranscription.ts:202-205 | the source starts, then recognition |
| Capture.CaptureSession.OnStart | src/services/audioTranscription.ts:162-164 | the recognizer is marked active and nothing else changes |
| Capture.CaptureSession.TakeOne | src/services/audioTranscription.ts:80-100 | one entry of the result loop updates the fields as TakeResult does |
| Capture.CaptureSession.OnResult | src/services/audioTranscription.ts:78-103 | the loop from `resultIndex` updates the fields as the batch transition does, and stops at the first final entry once the audio context is released |
| Capture.CaptureSession.OnError | src/services/audioTranscription.ts:124-160 | the fields and the calls match the error transition |
| Capture.CaptureSession.OnEnd | src/services/audioTranscription.ts:166-179 | the fields and the calls match the end transition |
| Capture.CaptureSession.OnSourceEnded | src/services/audioTranscription.ts:181-186 | the fields and the calls match the source-ended transition |
| Capture.CaptureSession.OnGraceElapsed | src/services/audioTranscription.ts:186-197 | the fields and the calls match the grace transition |
| Capture.CaptureSession.OnProgressTick | src/services/audioTranscription.ts:110-122 | the fields and the report match the tick transition |
| Service.TrackStops | src/services/audioTranscription.ts:405 | one stop per track, in order |
| Service.StopIdempotent | src/services/audioTranscription.ts:385-408 | after `stop()` no transcription is marked running and no context or stream is held; a second `stop()` makes no call and changes nothing |
| Service.StopCallsSpec | src/services/audioTranscription.ts:385-408 | the recognizer is stopped exactly while it runs, the context is closed exactly when one is set, and each track of a set stream is stopped once |
| Service.StopEachTrack | src/services/audioTranscription.ts:405 | the `forEach` stops the tracks in order |
| Service.TranscriptionService.constructor | src/services/audioTranscription.ts:15-24 | a new service holds a recognizer when the platform has one, and nothing else |
| Service.TranscriptionService.BeginTranscription | src/services/audioTranscription.ts:31-200 | without a recognizer it throws and acquires nothing; otherwise it opens a context, which a decoding failure leaves open, and on success holds the stream and marks processing |
| Service.TranscriptionService.Stop | src/services/audioTranscription.ts:385-408 | the new fields and the calls made are those of Stopped and StopCalls |
| Transcript.TrimStartSpec | src/services/audioTranscription.ts:85 | trimming the start drops a whitespace prefix and leaves a result that does not start with whitespace |
| Transcript.TrimEndSpec | src/services/audioTranscription.ts:85 | the same at the end |
| Transcript.TrimSpec | src/services/audioTranscription.ts:85-87 | `trim()` is empty exactly on all-whitespace text, and otherwise starts and ends with non-whitespace |
| Transcript.TrimIdempotent | src/services/audioTranscription.ts:87 | trimming a trimmed text changes nothing |
| Transcript.Split | src/services/audioTranscription.ts:335 | `split` always gives at least one piece |
| Transcript.SplitSpec | src/services/audioTranscription.ts:335 | n separators give n + 1 pieces, none containing the separator, and joining them gives the text back |
| Transcript.SplitWithout | src/services/audioTranscription.ts:335 | text without the separator is one piece |
| Transcript.SplitAfter | src/services/audioTranscription.ts:335 | splitting after a separator-free piece |
| Transcript.SplitOfSeparated | src/services/audioTranscription.ts:335 | text containing the separator gives at least two pieces |
| Transcript.SplitConcat | src/services/audioTranscription.ts:335 | splitting a concatenation whose left part ends with the separator |
| Transcript.SliceIndex | src/services/audioTranscription.ts:227 | a `slice` index is clamped to [0, len], and negative ones count from the end |
| Transcript.Slice | src/services/audioTranscription.ts:227 | `slice` of an in-range window is that window, and is empty when end <= start |
| Export.DivBounds | src/utils/exportTranscription.ts:4-6 | proof helper, not program behaviour: quotient bounds used by the clock split |
| Export.FloorDiv | src/utils/exportTranscription.ts:4-5 | flooring a quotient is integer division of the floor |
| Export.RemOfNonNegative | src/utils/exportTranscription.ts:5-6 | JavaScript `%` of a non-negative time is non-negative, and its floor is the integer remainder |
| Export.NatString | src/utils/exportTranscription.ts:9-11 | a numeral has at least one character, all of them digits |
| Export.NatStringRoundTrip | src/utils/exportTranscription.ts:9-11 | reading a numeral back gives the number |
| Export.NatStringLength | src/utils/exportTranscription.ts:9-53 | numbers below 10, 100 and 1000 have at most 1, 2 and 3 digits |
| Export.PadStart | src/utils/exportTranscription.ts:9-53 | `padStart` gives the longer of the text and the width |
| Export.LeadingZeros | src/utils/exportTranscription.ts:9-53 | leading zeros do not change a numeral's value |
| Export.ZerosParseToZero | src/utils/exportTranscription.ts:53 | a run of zeros reads as 0 |
| Export.PaddedRoundTrip | src/utils/exportTranscription.ts:9-53 | a zero-padded numeral is all digits and reads back as the number |
| Export.ClockSpec | src/utils/exportTranscription.ts:3-6 | for a non-negative time, minutes and seconds are in 0..59 and hours * 3600 + minutes * 60 + secs == floor(seconds) |
| Export.IntegerClock | src/utils/exportTranscription.ts:4-6 | the same split on whole seconds |
| Export.ModOfMultiple | src/utils/exportTranscription.ts:5 | proof helper, not program behaviour: remainder arithmetic used by the clock split |
| Export.DivModUnique | src/utils/exportTranscription.ts:4-6 | proof helper, not program behaviour: the quotient and remainder of an integer division are unique |
| Export.MulAtLeast | src/utils/exportTranscription.ts:4 | proof helper, not program behaviour: multiplying by at least one does not shrink |
| Export.NoSeparatorInDigits | src/utils/exportTranscription.ts:9-53 | digits contain no ':', ',' or line break |
| Export.Padded | src/utils/exportTranscription.ts:9-53 | a padded numeral of width 2 or 3 has exactly that width and reads back |
| Export.ClockTextFields | src/utils/exportTranscription.ts:8-11 | the template splits at ':' into two fields when there are no hours and three otherwise: unpadded leading field, two-digit padded fields, read back as the numbers |
| Export.FormatTimeRoundTrip | src/utils/exportTranscription.ts:3-12 | below an hour `formatTime` gives `M:SS`, from an hour on `H:MM:SS`; the fields read back as floor(seconds) |
| Export.MillisSpec | src/utils/exportTranscription.ts:51 | milliseconds are in 0..999 and are the thousandths of the fractional part |
| Export.SrtStampFields | src/utils/exportTranscription.ts:53 | the SubRip template splits at ':' into three fields and its last field at ',' into two and three digits, each read back; it is 12 characters long while hours < 100 |
| Export.FormatSrtTimeRoundTrip | src/utils/exportTranscription.ts:47-54 | `formatSRTTime` is `HH:MM:SS,mmm` with fields padded to 2/2/2/3 that read back as the whole seconds and the milliseconds; it has 12 characters below 100 hours |
| Export.SpeakerNameSpec | src/utils/exportTranscription.ts:15-19 | a label is shown as `Интервьюер` (`Респондент`) exactly when it is `interviewer` (`interviewee`) or already that name; other labels are unchanged, and distinct ones stay distinct |
| Export.RoundSpec | src/utils/exportTranscription.ts:29 | `Math.round` is within a half, and a confidence in [0, 1] gives a percentage in 0..100 |
| Export.TerminatedEndsWithBreak | src/utils/exportTranscription.ts:21-32 | terminated lines end with a line break |
| Export.TerminatedLines | src/utils/exportTranscription.ts:21-68 | splitting terminated single lines at line breaks gives the lines and a final empty piece |
| Export.TerminatedAppend | src/utils/exportTranscription.ts:26-69 | appending terminated parts terminates their concatenation |
| Export.FlattenUniform | src/utils/exportTranscription.ts:26-69 | blocks of w lines each take lines w*k up to w*k + w |
| Export.MulSucc | src/utils/exportTranscription.ts:26 | proof helper, not program behaviour: line arithmetic for the next block |
| Export.MulMonotone | src/utils/exportTranscription.ts:26 | proof helper, not program behaviour: line arithmetic for earlier blocks |
| Export.FlattenOneLine | src/utils/exportTranscription.ts:26-69 | blocks of single lines flatten into single lines |
| Export.TerminatedBlocks | src/utils/exportTranscription.ts:26-69 | terminated blocks split back into w * n lines plus a final empty piece, block by block |
| Export.SliceAfter | src/utils/exportTranscription.ts:21-33 | proof helper, not program behaviour: a slice past the header is a slice of the entries |
| Export.SliceOfAppend | src/utils/exportTranscription.ts:21-24 | proof helper, not program behaviour: a slice within the header ignores what follows |
| Export.Rule | src/utils/exportTranscription.ts:24 | the rule is 80 '=' characters |
| Export.ExportToText | src/utils/exportTranscription.ts:21-33 | the loop builds the header followed by one entry per row, in order |
| Export.NoBreakInNumeral | src/utils/exportTranscription.ts:9-53 | numerals hold no line break |
| Export.NoBreakInTimes | src/utils/exportTranscription.ts:3-54 | formatted times hold no line break |
| Export.TimeRangeOneLine | src/utils/exportTranscription.ts:28 | a time range holds no line break |
| Export.HeadingOneLine | src/utils/exportTranscription.ts:31 | an entry heading holds no line break |
| Export.EntrySplit | src/utils/exportTranscription.ts:31-32 | an entry is its heading line, its text line and a blank line |
| Export.HeaderSplit | src/utils/exportTranscription.ts:21-24 | the header is its six lines |
| Export.EntriesTerminated | src/utils/exportTranscription.ts:26-33 | the entries are their lines, each terminated |
| Export.EntriesLayout | src/utils/exportTranscription.ts:26-33 | the entries take three lines per row, in input order |
| Export.TextLayout | src/utils/exportTranscription.ts:21-33 | the text content is 6 + 3n + 1 lines: the header, whose count line reads back as the number of rows and whose fifth line is the 80-character rule; then entry k, numbered k + 1, at lines 6 + 3k..9 + 3k ending in a blank line |
| Export.ExportToSrt | src/utils/exportTranscription.ts:62-69 | the loop builds one block per row, in order |
| Export.TimeSpanOneLine | src/utils/exportTranscription.ts:67 | a block's time line holds no line break |
| Export.CaptionOneLine | src/utils/exportTranscription.ts:68 | a block's caption holds no line break for single-line rows |
| Export.BlockSplit | src/utils/exportTranscription.ts:66-68 | a block is its index, time, caption and blank lines |
| Export.SrtTerminated | src/utils/exportTranscription.ts:62-69 | the content is its blocks' lines, each terminated |
| Export.SrtBlocksOneLine | src/utils/exportTranscription.ts:64-69 | every block line is a single line |
| Export.SrtLayout | src/utils/exportTranscription.ts:62-69 | the SubRip content is 4n + 1 lines; block k is at lines 4k..4k + 4: the index k + 1, `start --> end`, `[speaker] text` and an empty line |
| Export.SrtContentEmpty | src/utils/exportTranscription.ts:62-69 | the content is empty exactly when there are no rows |
| Export.JsonData | src/utils/exportTranscription.ts:83-94 | `totalSegments` equals the number of entries and of rows; entry i copies row i's label, text, times and confidence |
| Pipeline.ErrorText | src/components/TranscriptionProcessor.tsx:85-87 | the shown error is never empty: the thrown message, or the default text when the message is empty |
| Pipeline.RowsOf | src/components/TranscriptionProcessor.tsx:63-70 | one row per diarized segment, in order |
| Pipeline.BuildRows | src/components/TranscriptionProcessor.tsx:45-75 | the placeholder row for an empty list, and otherwise the rows of the diarized segments, with diarization run only on a non-empty list |
| Pipeline.InsertRows | src/components/TranscriptionProcessor.tsx:55-84 | the insert is followed by the `completed` status and the callback, or by the catch block for the reported error |
| Pipeline.Attempt | src/components/TranscriptionProcessor.tsx:31-92 | the try and catch blocks produce the effects of Body |
| Pipeline.Store | src/components/TranscriptionProcessor.tsx:45-84 | the effects of storing the rows are Stored: diarization only for a non-empty list, one insert, then what follows it |
| Pipeline.StartTranscription | src/components/TranscriptionProcessor.tsx:18-97 | the effects of a run are Effects; the service it created ends up stopped, and its stop made exactly the calls StopCalls gives for what it held |
| Pipeline.Filter | src/components/TranscriptionProcessor.tsx:18-97 | a filtered trace keeps only effects of the kind asked for |
| Pipeline.FilterMembers | src/components/TranscriptionProcessor.tsx:18-97 | an effect is in the filtered trace exactly when it is in the trace and of the kind asked for |
| Pipeline.SettledTrace | src/components/TranscriptionProcessor.tsx:72-91 | after the insert: the error and the `error` status on a reported error, otherwise `completed` and the callback |
| Pipeline.FilterAppend | src/components/TranscriptionProcessor.tsx:18-97 | filtering distributes over concatenation |
| Pipeline.FilterPair | src/components/TranscriptionProcessor.tsx:18-97 | proof helper, not program behaviour: filtering two effects |
| Pipeline.StoredTrace | src/components/TranscriptionProcessor.tsx:45-84 | once segments are in hand: diarization only for a non-empty list, one insert, then `completed` and the callback, or the error and the `error` status |
| Pipeline.BodyTrace | src/components/TranscriptionProcessor.tsx:25-92 | the try and catch blocks by effect kind, for any outcome of the steps |
| Pipeline.Framed | src/components/TranscriptionProcessor.tsx:18-97 | a run's effects of a kind are those of the opening, the try and catch blocks, and the finally block |
| Pipeline.OpeningClosing | src/components/TranscriptionProcessor.tsx:19-96 | the opening raises the flag, clears the error and writes `processing`; the finally block clears the flag and stops the service |
| Pipeline.ProcessingTrace | src/components/TranscriptionProcessor.tsx:19-96 | the processing flag is raised once and cleared once; every run ends by clearing it and stopping the service, and the service is stopped exactly once |
| Pipeline.ErrorTrace | src/components/TranscriptionProcessor.tsx:20-85 | the error is cleared at the start and shown again exactly when a step failed, with the first failing step's message or the default text |
| Pipeline.StatusTrace | src/components/TranscriptionProcessor.tsx:26-90 | the status is written `processing` and then `completed` exactly when every step succeeded, and `error` otherwise |
| Pipeline.NotifyTrace | src/components/TranscriptionProcessor.tsx:84 | the completion callback runs once on success and never otherwise |
| Pipeline.DiarizeTrace | src/components/TranscriptionProcessor.tsx:45-61 | diarization runs exactly when the audio loaded and transcription settled with segments |
| Pipeline.InsertTrace | src/components/TranscriptionProcessor.tsx:45-75 | the rows are inserted exactly once when the audio loaded and transcription settled, even with no segments, and never otherwise |
| Pipeline.SucceedsSpec | src/components/TranscriptionProcessor.tsx:25-92 | a run succeeds exactly when no step fails |
| Pipeline.RowsOfRelabelled | src/components/TranscriptionProcessor.tsx:63-70 | rows of relabelled segments keep each segment's text and times, carry its role label, and default a zero confidence to 0.85 |
| Pipeline.RowsSpec | src/components/TranscriptionProcessor.tsx:45-70 | an empty result gives the single placeholder row (`speaker_1`, the placeholder text, 0 to the decoded duration, confidence 0.5); otherwise one row per segment in order, copying text and times, labelled `interviewer` or `interviewee`, with 0 confidence replaced by 0.85; no stored row has confidence 0 |
| Pipeline.RunReleasesService | src/components/TranscriptionProcessor.tsx:93-96 | after any run the service holds no running transcription, context or stream; the context is closed exactly when transcribeAudio was entered with a recognizer, and recognition is stopped exactly when capture started |

## Left out

- Browser objects are opaque. The speech recognizer, the `AudioContext`, the buffer source, the gain node and the media stream are event sources and resources. Their audio processing is not modelled.
- Timers, the event loop and interleaving are not modelled. The model receives events in an order it is given. Delays are labels on actions.
- Supabase is not modelled. The status writes and the insert are effects in a trace. The insert's outcome is a parameter.
- The fetch of the audio URL and its decoding are not modelled. The outcome is a parameter of startTranscription: a `Result` holding the duration, the first channel and the sample rate.
- The download is not modelled: `Blob`, object URLs, anchor clicks and the file name built with `Date.now`.
- `JSON.stringify` is not modelled. The JSON export is modelled as the object that is serialised.
- The export date is a parameter, because it comes from the clock: `toLocaleString` for text, `toISOString` for JSON.
- The progress and segment callbacks that startTranscription passes into transcribeAudio are left out of the pipeline trace. Only their calls from the capture loop (the `Progress` and `SegmentReady` actions) are modelled.
- `setCurrentSegment` is left out, for the same reason.
- The `onProgress` and `onSegment` parameters of transcribeAudio are optional, and every call is guarded. The model treats both as always present. The only caller, startTranscription, passes both.
- Features.MeanSquare: the energy is the mean square, without `Math.sqrt`. Distances are compared squared. Squaring preserves distance order. Normalising the mean square instead of the RMS can move the normalised energies, so the clusters can differ from the program's when energies differ.
- Capture.Step, Capture.Valid and the other capture transitions assume a positive decoded duration, because the progress tick divides by it (src/services/audioTranscription.ts:113). Capture.Open passes on any decoded duration; a decoded audio buffer always holds at least one frame.
- Numbers are exact reals. Floating-point rounding in means, normalisation, `% 1` and `Math.floor` of sample indices is not modelled.
- `Infinity` is not modelled.
- Export.FormatTimeRoundTrip and Export.FormatSrtTimeRoundTrip are stated for non-negative times only. Negative or NaN times are not given a layout.
- Pipeline.Attempt and Pipeline.StartTranscription model `performDiarization` as not throwing.
- Capture.OtherError: any other error code is one constructor, and the handler does nothing for it, as in the code.
- The constructor's recognizer settings (continuous, interim results off, one alternative, `ru-RU`) are not modelled.
- The playback rate 1.5 is a constant. The gain of 3 is not modelled.
- The sorting of the `transcriptions` table and the row identifiers are assigned by the store, and are not modelled.
- Service.TranscriptionService.Stop does not model a resource's own `stop` or `close` throwing. The program catches and logs an error from the recognizer's `stop()` (src/services/audioTranscription.ts:387-391) and from the context's `close()` (lines 396-400).
- Service.TranscriptionService.Stop assumes that a media track's `stop()` does not throw. The program does not catch it (line 405): a throwing track would skip the later tracks, leave `mediaStream` set, and escape the `finally` block of startTranscription.
- Export.ExportToText builds the entries in its loop and then puts the header in front. The program appends to a string that already holds the header. The content is the same.
- Diarization.SmoothSpeakerTransitions works on a copy of the array. The program's spread copies the array but shares the segment objects, so its in-place relabelling is also visible through the list it was given. The model does not capture that aliasing.

Where the program's own description and its code differ, the model follows the code:

- **Energy of an empty window.** It is `0/0`, which is NaN, not 0.
- **Distance ties.** A tie goes to `cluster2`, because the comparison is a strict `<`.
- **Early break in k-means.** The break returns the partition that has the empty cluster, not the previous partition.
- **No-speech errors.** The counter counts every no-speech error of the run. It is never reset, so the cap is cumulative, not "consecutive".
- **Progress 100.** It is reported by each resolving branch, and can be reported more than once.
- **`not-allowed`.** It rejects but leaves `shouldContinue` set, so a later end of recognition can still restart the recognizer while the audio context is held. Once `stop()` has released the context, that end throws on `this.audioContext!` instead and nothing is restarted (Capture.ReleasedContextSpec).
