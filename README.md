# Live transcription and diarization: a verified model

This project models the logic around the machine-learning and audio libraries of a
live Japanese transcription service.

- The capture side keeps a bounded rolling sample buffer. It cuts overlapping chunks out of
  it and lets a chunk through only when a voice-activity count or its peak level says it
  holds sound.
- The transcriber strips the recogniser's output and blanks known hallucination phrases.
  It keeps only segments with real text.
- The service keeps a rolling log of the last fifty non-blank results. An `is_running`
  flag guards a second start.
- The diarizer works without a pretrained pipeline. It picks one-second analysis windows,
  chooses a cluster count from k-means inertias by the elbow rule, and labels windows
  `Speaker_A`, `Speaker_B`, …. It then merges adjacent same-speaker turns and gives each
  transcript segment the speaker with the largest time overlap. It also computes a
  per-speaker summary.
- The upload server shares two recogniser engines through a two-flag pool. Under
  contention that pool hands slot "1" out twice. The server gives each segment the speaker
  of the first turn containing its start or its end.

The learned and signal parts are inputs of the model:

- the frame classifier is a function from a frame to `Speech`, `NonSpeech` or `FrameError`,
  plus a flag saying whether the sample conversion raised;
- feature extraction is a predicate saying whether it succeeded on a window;
- k-means is a function from a cluster count to an inertia, plus per-count labels and
  failure flags;
- the recogniser's output is a value, or the fact that it raised;
- the pretrained pipeline's outcome is a value.

Times are exact reals and samples are `seq<real>`.

One Dafny module per source file, plus two shared modules:

| file | models |
|---|---|
| `Wrappers.dfy` | `Option` (a missing dictionary key) and `Result` (a raised exception) |
| `Transcript.dfy` | the segment and result records, Python's `str.strip` and `in`, and the phrase filter that src/transcribe.py and backend/main.py both apply |
| `Config.dfy` | src/config.py |
| `Audio.dfy` | src/audio.py |
| `Transcribe.dfy` | src/transcribe.py |
| `Service.dfy` | src/main.py |
| `Diarization.dfy` | src/diarization.py |
| `Backend.dfy` | backend/main.py |

Code that mutates state is modelled as classes with `modifies` clauses:

- `AudioCapture` (the deque and the recording flag);
- `Transcriber`, `SpeakerDiarization` and `TranscriptionService`;
- `EnginePool`, whose fields are the global `model_lock` dictionary.

Each loop of the source is a method with loop invariants, with one exception: the loop
that collects k-means inertias (src/diarization.py:377-380) only fills a list from an
input function, so it is the comprehension `Diarization.Inertias`. Each such method is
proved equal to a specification function, and the properties are lemmas about those
functions.

Behaviour of the source worth noting:

- There is no queue between capture and transcription. `start_transcription` awaits each
  chunk inline (src/main.py:83-88), so the model has no bounded drop-oldest queue.
- A run that ends at a yielded chunk leaves that chunk in the capture buffer. This
  happens on a stop, on a raise such as "Model not loaded", or on a cancel during
  transcription. The generator is suspended at its `yield` and never resumed, so that
  pass's pop (src/audio.py:96-98) does not happen (`Service.TranscriptionService.StartTranscription`).
- The elbow result is `min(argmax + 2, cap)`. The fallback passes
  `max_clusters = min(MAX_SPEAKERS, windows // 2)`, and the elbow code then lowers it to
  `windows // 3` (src/diarization.py:243, 369, 391).
- Releasing a shared slot does not restore a "free" state for its other holder
  (`Backend.SharedSlotFreedEarly`).
- The upload server assigns speakers by endpoint containment, not by overlap
  (`Backend.ContainmentDiffersFromOverlap`).
- tests/test_vad.py:52 expects a chunk of 32000 samples. The configuration gives 64000,
  because `CHUNK_MS` is 4000. The model uses 64000, and `Config.ChunkSizeIsNotTwoSeconds`
  states the difference.

Modelling choices:

- RMS energy below 0.001 is stated as a sum of squares below 0.000001 times the window
  length. Over the reals this is the same test.
- The capture model states its sizes as literals (64000, 8000, 160). `Audio.SizesFromConfig`
  proves them equal to the configuration's conversions.
- The module-level `transcription_results` list of src/main.py is the `results` field of
  the service.

## Model

| member | source | states |
|---|---|---|
| Config.MsToSamplesIsFloor | src/config.py:33-45 | the conversion is `int(SAMPLE_RATE * ms / 1000)`: the largest whole number of samples not exceeding `ms` milliseconds |
| Config.ChunkSize | src/config.py:33-35 | the chunk is four seconds of samples at 16 kHz |
| Config.OverlapSize | src/config.py:38-40 | the overlap is half a second of samples |
| Config.VadFrameSize | src/config.py:43-45 | a detector frame is a hundredth of a second of samples |
| Config.ConcreteSizes | src/config.py:33-45 | chunk, overlap and frame are 64000, 8000 and 160 samples |
| Config.ChunkSizeIsNotTwoSeconds | tests/test_vad.py:52 | the chunk is not the 32000 samples the test expects; 32000 would need `CHUNK_MS` 2000 |
| Config.OverlapBelowChunk | src/config.py:6-7 | the overlap is positive and below the chunk, so the pop count is positive; chunk plus overlap is 72000 |
| Config.BlockIsOneChunk | src/config.py:8 | the device block size equals one chunk, four seconds at the sample rate |
| Transcript.Strip | src/transcribe.py:85 | the stripped text is no longer than the text and neither starts nor ends with whitespace |
| Transcript.StripRemovesSurroundingSpace | src/transcribe.py:85 | the stripped text is the piece of the text that has only whitespace before and after it: nothing but leading and trailing whitespace is removed |
| Transcript.StripEmptyIffAllSpace | src/transcribe.py:103 | the stripped text is empty exactly when every character is whitespace |
| Transcript.StripIdempotent | src/transcribe.py:94 | stripping twice is stripping once |
| Transcript.Contains | src/transcribe.py:87 | `phrase in text` holds exactly when the phrase occurs at some position of the text |
| Transcript.FilteredBy | src/transcribe.py:85-89 | the reference filter: the stripped text, or "" when some phrase of the list matches it; its meaning is FilteredCases |
| Transcript.FilterText | src/transcribe.py:85-89 | the phrase loop returns the stripped text, or "" when a phrase occurs in it and the text is at most five characters longer than that phrase |
| Transcript.PhrasesAreTrimmed | src/transcribe.py:71-82 | every unwanted phrase is non-empty and has no surrounding whitespace |
| Transcript.EmptyMatchesNothing | src/transcribe.py:87 | no non-empty phrase matches the empty text |
| Transcript.FilteredCases | src/transcribe.py:85-89 | the filtered text is empty exactly when the stripped text is empty or a hallucination, and otherwise is the stripped text |
| Transcript.FilterIdempotent | src/transcribe.py:85-89 | filtering filtered text changes nothing |
| Transcript.PhraseWithSuffixBlanked | src/transcribe.py:86-89 | a phrase followed by up to five more characters is blanked |
| Transcript.TrimEndKeepsWord | src/transcribe.py:85 | removing trailing whitespace from a word that ends in a non-blank character followed by anything keeps the word as a prefix and cuts only what follows |
| Transcript.LongTextKept | src/transcribe.py:86-89 | a stripped text longer than 27 characters is never blanked |
| Audio.SizesFromConfig | src/audio.py:15-17 | the capture's chunk, overlap and frame sizes are the configuration's conversions |
| Audio.Capacity | src/audio.py:23 | the buffer bound, chunk plus overlap, exceeds one chunk |
| Audio.Advance | src/audio.py:96 | the pop count is positive, below one chunk, and leaves exactly the overlap of a chunk |
| Audio.MaxAbs | src/audio.py:86 | the audio level bounds every sample's magnitude and is attained by one |
| Audio.KeepLast | src/audio.py:23 | an extended bounded deque holds the last `min(len, maxlen)` samples of old contents followed by the new ones |
| Audio.KeepLastStep | src/audio.py:119 | extending by one more sample is appending it with the oldest dropped when full |
| Audio.KeepLastConcat | src/audio.py:109-119 | two extends in a row are one extend by both blocks |
| Audio.Tally | src/audio.py:38-47 | the reference count: voiced and classified frames over the offsets `i, i + frame, …` below `len - frame`, a raising frame scoring nothing; its properties are the Tally and frame lemmas below |
| Audio.VoicedDecision | src/audio.py:28-58 | the reference voicing decision: true when the conversion raised, else more than a tenth of the classified frames are speech, false when none was classified; VoicedRatio states it as a ratio |
| Audio.Gate | src/audio.py:86-89 | the reference gate: a chunk is yielded when it is voiced or its peak level exceeds 0.001 |
| Audio.VoicedRatio | src/audio.py:49-54 | without a conversion error the chunk is voiced exactly when some frame was classified and more than a tenth of the classified frames are speech |
| Audio.LastFrameIgnored | src/audio.py:38 | frame offsets stop below `len - frame`, so the last whole frame of a chunk never affects the counts |
| Audio.NoSpeechNoVoiced | src/audio.py:38-47 | with no frame classified as speech, the voiced count is zero |
| Audio.AllErrorsNoTotal | src/audio.py:38-47 | when every frame's classification raises, both totals are zero |
| Audio.ErrorFrameUncounted | src/audio.py:38-47 | a frame whose classification raises counts in neither total: raising on one frame and agreeing elsewhere lowers the counts by exactly that frame's score |
| Audio.TallyAgrees | src/audio.py:38-47 | the counts depend only on the verdicts on the frames the loop visits |
| Audio.TallyBounds | src/audio.py:38-47 | the voiced count is never negative and never exceeds the classified count |
| Audio.SilentChunkSkipped | tests/test_vad.py:16-22 | an all-zero chunk classified as non-speech is not voiced, has level 0, and is not yielded |
| Audio.AfterWait | src/audio.py:81-98 | the reference pass after a wait: with a full chunk in the buffer, take its first chunk-size samples, yield them when the gate holds, and drop `min(len, chunk - overlap)` samples from the front; otherwise wait on; its shape is AfterWaitShape |
| Audio.Step | src/audio.py:76-119 | the reference wait: the samples delivered during it extend the bounded buffer, one pass runs, and a yielded chunk joins the list |
| Audio.SessionAfter | src/audio.py:76-98 | the reference session: one step per wait from the starting buffer; RecordShape and ChunksGrow state its properties |
| Audio.AfterWaitShape | src/audio.py:81-98 | a chunk is taken only from a buffer holding one, it is the buffer's first chunk of samples, and then exactly `min(len, chunk - overlap)` samples leave the front, whether or not the chunk was yielded |
| Audio.RecordShape | src/audio.py:76-98 | across a whole recording the buffer stays within its bound and every yielded chunk has exactly chunk-size samples |
| Audio.ChunksGrow | src/audio.py:76-98 | the chunks yielded by the first waits of a session begin the chunks yielded by any longer run of the same waits |
| Audio.ChunksSoFarGrow | src/audio.py:76-98 | each wait keeps every chunk yielded before it and yields at most one more |
| Audio.GrowsPrefix | src/audio.py:76-98 | in such growing lists, each list is a prefix of every later one |
| Audio.FirstPastMeaning | src/audio.py:76-98 | growing lists starting empty pass `n` elements within `m` steps exactly when list `m` is longer than `n`; the step named goes from `n` to `n + 1` |
| Audio.FirstPastAt | src/audio.py:76-98 | the step that goes from `n` elements to `n + 1` is the one named |
| Audio.Filled | src/audio.py:76-81 | the buffer of a wait once its samples have arrived and before its pass: the session buffer of the earlier waits extended by that wait's samples |
| Audio.YieldingWait | src/audio.py:81-91 | the wait whose pass yields chunk `n`, when the session yields that many; it is one of the session's waits, and YieldingWaitMeaning states what it is |
| Audio.YieldingWaitMeaning | src/audio.py:81-98 | chunk `n` is yielded exactly when the session yields more than `n` chunks; the yielding wait follows waits that yielded `n` chunks, and its pass hands on chunk `n` taken from the buffer as filled by that wait's samples |
| Audio.YieldingWaitAt | src/audio.py:81-98 | the wait that takes the session from `n` yielded chunks to `n + 1` is the yielding wait of chunk `n` |
| Audio.YieldedChunk | src/audio.py:81-91 | a wait that yields a chunk appends the chunk taken from its filled buffer after the earlier chunks |
| Audio.FirstChunkHeld | src/audio.py:81-91 | from an empty buffer, one wait delivering a full chunk that passes the gate yields it as chunk 0, and that wait's filled buffer is exactly those samples |
| Audio.FilledThenPass | src/audio.py:81-98 | only the pop of the wait's pass separates its filled buffer from the buffer after the wait |
| Audio.AudioCapture.constructor | src/audio.py:13-24 | an empty buffer, not recording |
| Audio.AudioCapture.AudioCallback | src/audio.py:109-119 | the per-sample extend leaves the buffer as the bounded deque's extend does |
| Audio.AudioCapture.Append | src/audio.py:119 | one sample of `deque.extend`: appended, with the oldest sample dropped first when the buffer is full |
| Audio.AudioCapture.IsVoiced | src/audio.py:28-58 | the frame loop returns the voicing decision: true when conversion raised, else ratio above a tenth when frames were classified, else false |
| Audio.AudioCapture.AboveTenth | src/audio.py:51-53 | `voiced_frames / total_frames > 0.1`, computed on the reals, holds exactly when ten times the voiced count exceeds the total |
| Audio.AudioCapture.Poll | src/audio.py:77-100 | one wait of the recording loop, with its pop loop, produces exactly the specified buffer and yielded chunk |
| Audio.AudioCapture.Take | src/audio.py:81-91 | the pass up to its `yield` hands on exactly the specified chunk, the first chunk-size samples, and leaves the buffer as it is |
| Audio.AudioCapture.Pop | src/audio.py:95-98 | a buffer holding a chunk loses exactly `chunk - overlap` samples from its front; a shorter one is kept |
| Audio.AudioCapture.Wait | src/audio.py:76-119 | one wait of the recording loop, callback delivery included, leaves the buffer and chunk list the reference wait specifies, and keeps the bound |
| Audio.AudioCapture.StartRecording | src/audio.py:60-107 | the recording yields what the session specification yields and ends with the flag cleared |
| Audio.AudioCapture.StopRecording | src/audio.py:121-124 | the recording flag is cleared and the buffer kept |
| Transcribe.KeptSegments | src/transcribe.py:92-109 | the reference segment filter: the segments whose stripped text is non-empty and matches no phrase, in order, each with its stripped text and speaker "Unknown" |
| Transcribe.KeptSegmentsAreSubsequence | src/transcribe.py:92-109 | the kept segments are, in order, exactly the input segments that pass the filter, each with its start and end, its stripped text and speaker "Unknown" |
| Transcribe.TrueIndicesOrderedComplete | src/transcribe.py:94-109 | the positions of the kept segments are strictly increasing and include every position whose segment passes the filter |
| Transcribe.KeptSegmentsClean | src/transcribe.py:94-109 | every kept segment has non-empty, stripped text matching no phrase, and speaker "Unknown" |
| Transcribe.SegmentFilterIdempotent | src/transcribe.py:92-109 | filtering the kept segments again keeps all of them unchanged |
| Transcribe.ReFilterClean | src/transcribe.py:92-109 | segments that are already clean survive filtering as they are |
| Transcribe.TranscribeResult | src/transcribe.py:60-123 | the reference result: the filtered text, the kept segments and the reported language or the configured one; the empty result in the configured language when the recogniser raised |
| Transcribe.TranscribeResultMeaning | src/transcribe.py:60-123 | on a raised recogniser the result is empty in the configured language; otherwise the text is filtered and the language defaults to the configured one and no segments give no segments |
| Transcribe.SkipSegment | src/transcribe.py:97-101 | the inner loop flags the segment exactly when some phrase matches its stripped text |
| Transcribe.FilterSegments | src/transcribe.py:92-109 | the segment loop returns the kept segments |
| Transcribe.Transcriber.constructor | src/transcribe.py:11-14 | the configured language, not loaded |
| Transcribe.Transcriber.LoadModel | src/transcribe.py:16-24 | sets the loaded flag |
| Transcribe.Transcriber.UnloadModel | src/transcribe.py:125-128 | clears the loaded flag |
| Transcribe.Transcriber.TranscribeSync | src/transcribe.py:60-123 | returns the specified result for the recogniser's outcome |
| Transcribe.Transcriber.Transcribe | src/transcribe.py:26-58 | raises "Model not loaded. Call load_model() first." when not loaded; otherwise the synchronous result, or the empty result when preparation raised |
| Service.Logged | src/main.py:90-96 | the reference logging step: a spoken result is appended, and the oldest entry is dropped when the log then holds more than fifty |
| Service.LogAll | src/main.py:83-96 | the reference log after a run: one logging step per result, in order |
| Service.LoggedMeaning | src/main.py:90-96 | a blank result leaves the log alone; a spoken one becomes the last entry, the log stays within fifty, and on overflow only the oldest entry goes |
| Service.LogAllKeepsLast | src/main.py:83-96 | after any run the log is the last fifty of the old log followed by the run's spoken results |
| Service.LogAllBounded | src/main.py:94-96 | the log never exceeds fifty entries |
| Service.TranscriptionService.constructor | src/main.py:56-60 | a freshly allocated capture and transcriber; not running, empty log, unloaded transcriber, idle capture |
| Service.TranscriptionService.Initialize | src/main.py:62-71 | loads the model |
| Service.TranscriptionService.LogResult | src/main.py:90-96 | one append-and-evict step is the specified logging step and keeps the bound |
| Service.RunResults | src/main.py:83-96 | the reference results of one run: none when the model is not loaded, otherwise one per chunk taken before the stop request |
| Service.EndingChunk | src/main.py:84-88 | the run ends at the first chunk when the model is not loaded, else at the chunk before which the stop request arrives |
| Service.EarlierResults | src/main.py:83-96 | the results of the chunks consumed before the ending chunk are those of the run's specification |
| Service.EndedRun | src/main.py:83-99 | a run ending at a yielded chunk holds it from the yielding wait of that chunk, and logged the results of the chunks before it |
| Service.FinishedRun | src/main.py:83-96 | a run that consumed every chunk without reaching its ending chunk logged the whole session's results and holds no chunk |
| Service.TranscriptionService.StartTranscription | src/main.py:73-102 | no effect when already running; otherwise the session's waits and the chunk loop interleave. The results of the chunks taken before a stop or a raise are logged, and both flags end cleared. When the run ends at a yielded chunk, the final buffer is the one that wait filled, since the generator never resumes to pop it; otherwise it is the session's buffer |
| Service.TranscriptionService.Consume | src/main.py:84-96 | the loop's turn on one chunk: go on exactly when the model is loaded and the stop request has not arrived, logging the chunk's result; otherwise the log is unchanged |
| Service.TranscriptionService.StartRequest | src/main.py:123-133 | reports "already_running" exactly when running, with nothing changed, and "started" otherwise, after a run as StartTranscription states, final buffer included |
| Service.TranscriptionService.StopTranscription | src/main.py:104-108 | clears the running flag and the capture's recording flag |
| Service.TranscriptionService.Cleanup | src/main.py:110-114 | stopped and unloaded |
| Service.TranscriptionService.GetResults | src/main.py:150-157 | the reported count is the log's length, at most fifty |
| Service.TranscriptionService.ClearResults | src/main.py:159-164 | the log is empty afterwards |
| Diarization.SingleSpeaker | src/diarization.py:169-232 | the single-speaker result: "Speaker_A" over `[0, len / sr]`, with one speaker |
| Diarization.SpeakerNames | src/diarization.py:251 | one name per cluster |
| Diarization.WindowStep | src/diarization.py:166-167 | the window step is positive |
| Diarization.KeptStarts | src/diarization.py:187 | every analysed start lies at or after the scan's start and satisfies `start + window < len`, so a window ending exactly at the end is never analysed |
| Diarization.KeptStartsKept | src/diarization.py:187-200 | the window at every analysed start passes the energy test and the feature extraction |
| Diarization.KeptStartsIncreasing | src/diarization.py:187 | the analysed starts are strictly increasing |
| Diarization.KeptStartsComplete | src/diarization.py:187-200 | no window is skipped: every start a whole number of steps from the first, whose window ends before the input's end and passes the test, is analysed |
| Diarization.KeptStartsOnGrid | src/diarization.py:187 | every analysed start is a multiple of the step |
| Diarization.Spans | src/diarization.py:215-218 | one span per analysed window, from `i / sr` to `(i + window) / sr` |
| Diarization.WindowInsideInput | src/diarization.py:215-218 | every window span starts at or after 0, lasts one second, and ends before the input's end |
| Diarization.AnalysisWindows | src/diarization.py:187-219 | the window loop returns the spans of the kept starts |
| Diarization.Inertias | src/diarization.py:374-380 | the inertias of k-means for `k = 1 .. cap`, in order, one per count |
| Diarization.Diff | src/diarization.py:385-386 | `np.diff`: one element fewer, each the difference of consecutive elements |
| Diarization.ArgMax | src/diarization.py:390 | `np.argmax`: a maximum, the first one |
| Diarization.OptimalClusters | src/diarization.py:364-398 | 1 exactly when under six rows or a cap below 2; otherwise within [2, cap]; 2 when the cap is 2 or the inertias fail |
| Diarization.OptimalClustersElbow | src/diarization.py:375-391 | with at least six rows, a cap of at least 3 and working inertias, the second difference has `cap - 2` entries and the result is its first argmax plus 2, at most `cap - 1` |
| Diarization.Fold | src/diarization.py:409-413 | a fold keeps the first start and speaker, takes the later end, and recomputes the duration |
| Diarization.MergeFrom | src/diarization.py:405-420 | between 1 and `len + 1` turns, first start and speaker kept, last end kept, no two neighbours left joinable |
| Diarization.MergeFromSpeakers | src/diarization.py:405-420 | merging keeps exactly the set of speakers |
| Diarization.Merged | src/diarization.py:400-420 | the reference merge: lists of at most one turn as they are, otherwise the running fold from the first turn; MergedShape and MergeIdempotent state its properties |
| Diarization.MergeAdjacent | src/diarization.py:400-420 | the merge loop returns the specified merge |
| Diarization.AbsorbOrEmit | src/diarization.py:409-417 | a joinable next turn is folded into the current one; otherwise the current turn is emitted and the next one becomes current |
| Diarization.MergedShape | src/diarization.py:400-420 | lists of length at most 1 are unchanged; otherwise a non-empty list no longer than the input with no joinable neighbours |
| Diarization.MergeFromNoJoins | src/diarization.py:405-420 | a list without joinable neighbours is left as it is |
| Diarization.MergeIdempotent | src/diarization.py:400-420 | merging twice is merging once |
| Diarization.WindowsJoinOnlyTwoStepsApart | src/diarization.py:410 | with 50% overlap, two window turns of one speaker join exactly when they are two steps apart |
| Diarization.ConsecutiveWindowsStaySeparate | src/diarization.py:410 | at 16 kHz consecutive windows are exactly 0.5 s apart and the strict test does not merge them |
| Diarization.LabelledTurns | src/diarization.py:253-259 | one turn per window and label pair, as `zip` truncates |
| Diarization.LabelWindows | src/diarization.py:253-259 | the labelling loop returns the labelled turns |
| Diarization.FallbackResult | src/diarization.py:160-287 | the reference fallback: the single-speaker result on short input, fewer than three windows or a failure; otherwise the elbow's cluster count, its names and the merged labelled windows |
| Diarization.FallbackDiarization | src/diarization.py:160-287 | the fallback returns the specified result |
| Diarization.FallbackSingleSpeaker | src/diarization.py:169-232 | input shorter than a window, fewer than three windows, or a failure give exactly one turn "Speaker_A" over the whole input with one speaker |
| Diarization.FallbackClustered | src/diarization.py:243-271 | otherwise the chosen number of speakers, between 1 and 5, its speaker names, and the merge of the labelled windows, no more turns than windows |
| Diarization.FallbackClusteredSpeakers | src/diarization.py:243-271 | with one label per window, each below the cluster count, as k-means returns them, the result has a turn and every turn's speaker is one of the listed speakers |
| Diarization.MergedLabelsNamed | src/diarization.py:251-271 | merging windows labelled below `k` leaves at least one turn, and every turn's speaker is one of the `k` names listed |
| Diarization.Overlap | src/diarization.py:453-456 | the overlap is never negative |
| Diarization.BestTurn | src/diarization.py:446-460 | no turn when every overlap is zero; otherwise the first turn with the strictly largest, positive overlap |
| Diarization.AssignSpeakers | src/diarization.py:435-468 | no turns leave the segments unchanged; otherwise same length and order, each segment changed only in its speaker, which is the assigned one |
| Diarization.AssignedSpeaker | src/diarization.py:446-460 | the reference assignment: the speaker of the best turn, "Unknown" when no turn overlaps; AssignedSpeakerMeaning states what it is |
| Diarization.BestSpeaker | src/diarization.py:446-460 | the inner scan over the turns returns the assigned speaker |
| Diarization.AssignedSpeakerMeaning | src/diarization.py:446-460 | "Unknown" when nothing overlaps; otherwise the speaker of a turn with maximal overlap |
| Diarization.ContainedSegmentGetsItsTurn | src/diarization.py:449-460 | with disjoint turns, a segment inside one turn gets that turn's speaker |
| Diarization.LargerOverlapWins | src/diarization.py:458-460 | of two turns with unequal overlaps, the larger wins |
| Diarization.StatsOf | src/diarization.py:485-498 | the reference statistics of one speaker: the summed `end - start` (0 for a missing key), the count, and the texts ("" when missing) of that speaker's segments |
| Diarization.AbsentSpeakerStats | src/diarization.py:485-497 | a speaker that never occurs has zero duration, count and words |
| Diarization.SpeakerSummary | src/diarization.py:480-503 | empty input gives zero speakers; the keys are the distinct speakers, with a missing one counted as "Unknown", and each entry holds that speaker's duration sum, count and texts |
| Diarization.AddToStats | src/diarization.py:486-497 | one loop step turns the statistics of a prefix into those of the prefix extended by the segment, keys included |
| Diarization.StatsOfSnoc | src/diarization.py:486-497 | appending a segment changes only its own speaker's statistics: its duration is added, the count grows by one and its text ("" when missing) is appended |
| Diarization.CountsSumToLength | src/diarization.py:485-498 | the per-speaker counts sum to the number of segments |
| Diarization.SpeakerDiarization.constructor | src/diarization.py:26-29 | not loaded, no pipeline |
| Diarization.SpeakerDiarization.LoadModel | src/diarization.py:32-68 | loaded in every case, with a pipeline only when it loaded |
| Diarization.SpeakerDiarization.UnloadModel | src/diarization.py:505-509 | unloaded, no pipeline |
| Diarization.Normalised | src/diarization.py:104-106 | the reference peak normalisation: each sample divided by the peak magnitude when it is positive, the input otherwise |
| Diarization.NormalisedPeak | src/diarization.py:104-106 | peak normalisation keeps the length, brings every sample within [-1, 1], gives a sample of magnitude 1 unless the input is silent, and leaves silence unchanged |
| Diarization.SpeakerDiarization.DiarizeAudio | src/diarization.py:70-158 | empty when not loaded; the pipeline's turns when present and successful; the fallback on the input without a pipeline, and on a pipeline failure the fallback on the peak-normalised input when the failure came after normalisation, on the input otherwise |
| Backend.Acquire | backend/main.py:54-69 | the slot handed out is marked busy and nothing else changes |
| Backend.Release | backend/main.py:71-73 | only the released slot becomes free |
| Backend.AcquireMeaning | backend/main.py:54-69 | slot "1" when free, else "2" when free; a free slot whenever one exists; busy afterwards, the other unchanged |
| Backend.ContentionSharesSlotOne | backend/main.py:67-69 | with both busy, slot "1" is handed out again and the state does not change |
| Backend.ThreeRequests | backend/main.py:54-69 | three requests to a fresh pool get "1", "2", "1" |
| Backend.ReleaseIdempotent | backend/main.py:186-196 | releasing twice, as the `finally` and `except` do, is releasing once |
| Backend.AcquireReleaseRestores | backend/main.py:54-73 | with a free slot, acquire then release restores the pool |
| Backend.SharedSlotFreedEarly | backend/main.py:67-73 | under contention, the first holder's release frees slot "1" while the other still uses it |
| Backend.FirstTouching | backend/main.py:163-169 | no turn exactly when none contains the start or the end (bounds included); otherwise the first that does |
| Backend.InnerTurnDoesNotTouch | backend/main.py:163-169 | a turn strictly inside a segment never matches |
| Backend.ContainmentDiffersFromOverlap | backend/main.py:159-169 | a segment covering a whole turn gets its speaker by overlap but "Unknown" by containment |
| Backend.SpeakerAt | backend/main.py:159-169 | the reference speaker: that of the first turn containing the segment's start or end, else "Unknown" |
| Backend.AttachOne | backend/main.py:148-178 | the reference treatment of one segment: nothing when its filtered text is empty, else the segment with that text and its speaker |
| Backend.Attach | backend/main.py:146-178 | the reference segment list: each segment treated in order |
| Backend.AttachKeepsAsTranscriber | backend/main.py:146-178 | apart from speakers, the server keeps exactly the segments the live transcriber keeps, in order, with the same start, end and text |
| Backend.AttachSpeakers | backend/main.py:159-178 | each kept segment's speaker is that of the first touching turn, else "Unknown" |
| Backend.NoTurnsAllUnknown | backend/main.py:135-169 | with no turns every speaker is "Unknown" |
| Backend.FullText | backend/main.py:95-104 | the reference full text: the segments' texts concatenated in order |
| Backend.SegmentTextInFullText | backend/main.py:95-104 | the full text holds each segment's text right after the texts before it |
| Backend.FindSpeaker | backend/main.py:159-169 | the speaker loop returns the speaker of the first touching turn, else "Unknown" |
| Backend.AppendWithSpeaker | backend/main.py:148-178 | one loop step appends nothing when the filtered text is empty, else one segment with the filtered text and the first touching turn's speaker |
| Backend.SegmentsWithSpeakers | backend/main.py:146-178 | the segment loop returns the attached segments |
| Backend.JoinTexts | backend/main.py:95-104 | the conversion loop returns the concatenated text |
| Backend.Response | backend/main.py:106-184 | the reference response: the filtered full text, the attached segments and the recogniser's language |
| Backend.EnginePool.constructor | backend/main.py:26 | both slots free |
| Backend.EnginePool.GetAvailableModel | backend/main.py:54-69 | behaves as the acquire specification |
| Backend.EnginePool.ReleaseModel | backend/main.py:71-73 | behaves as the release specification |
| Backend.EnginePool.TranscribeAudio | backend/main.py:75-196 | a non-audio upload fails with the 500 detail and leaves the pool alone; otherwise the engine is acquired and released once (twice on a raise), and the result is the filtered text and attached segments or the failure detail |

## Left out

- Audio device I/O: the input stream, the sleep timing of the recording loop, `get_device_info` and test_audio.py. Per wait, the samples the callback delivers are an input.
- webrtcvad's `is_speech` and the float to int16 conversion. The frame classifier is an input that may report an error, and a flag says whether the conversion raised.
- `_extract_voice_features`, `StandardScaler`, `KMeans` and `nan_to_num`. These are floating-point numerics done by libraries. Feature extraction is an input, and k-means inertias and labels are inputs.
- pyannote loading and `_pyannote_diarization`: the temporary file, the device moves and the token. Their outcome is an input, and a raise leads to the fallback.
- mlx_whisper and faster_whisper, the normalisation of audio before recognition, and `run_in_executor`. The recogniser's output is an input. A raise during preparation gives the same empty result as a raise in the recogniser.
- HTTP plumbing is not modelled:
  - FastAPI, uvicorn, CORS, the lifespan hook and the signal handlers;
  - the `/`, `/health` and `/status` endpoints, which only report fields;
  - asyncio task creation and cancellation;
  - reading the upload and the temporary file.
- The content-type check is kept only as a flag. Its HTTP 400 is caught by the request's own `except` and reported as a 500.
- Concurrency is not modelled. Pool acquire and release are sequential calls, and a stop request arriving during a run is an input: the chunk index before which it lands.
- tests/test_latency.py measures wall-clock time and memory. It has no functional content.
- Diarization.SpeakerSummary: the statistics are a map, so the order in which speakers first appear, which the source's dictionary keeps, is not modelled.
- Diarization.SpeakerDiarization.DiarizeAudio: the cast to 32-bit floats before normalisation is not modelled; samples are exact reals.
- Service.TranscriptionService.StartTranscription: a `/stop` cancel that lands while the recording loop sleeps is modelled as a session that ends after its last full wait. Samples delivered during that interrupted sleep are not modelled. A cancel during the transcription of a chunk leaves the same state as the stop found at that chunk, which the model does cover. The same holds for StartRequest.
- Diarization.AssignSpeakers: the defaults of `trans_seg.get("start", 0)` and `get("end", 0)` (src/diarization.py:442-443) are not modelled, because a segment always carries both times; every producer of segments sets both keys.
- Integer widths do not arise: Python's integers are unbounded, and so are the model's.
