/** The transcription service of src/main.py: the rolling log of recent results (the
    module's `transcription_results` list, capped at fifty entries with the oldest
    evicted), the `is_running` flag that guards a start, and the start, stop, results
    and clear operations of the service and its HTTP endpoints.

    A run drives the audio capture's recording session over the samples delivered
    during each of its waits; the recogniser is a function from a chunk to its outcome,
    and a stop request is the position of the chunk before which it arrives. */
module Service {
  import opened Transcript
  import opened Transcribe
  import Audio
  import opened Wrappers

  /** The most results the log keeps. */
  const MaxResults: nat := 50

  /** A result is logged only when its text is not blank. */
  predicate Spoken(r: Transcription)
  {
    Strip(r.text) != ""
  }

  /** The log after one more result: appended when spoken, and the oldest entry dropped
      when the log then holds more than fifty. */
  function Logged(log: seq<Transcription>, r: Transcription): seq<Transcription>
  {
    if !Spoken(r) then log
    else
      var longer := log + [r];
      if |longer| > MaxResults then longer[1..] else longer
  }

  /** The log after a run of results, one after the other. */
  function LogAll(log: seq<Transcription>, rs: seq<Transcription>): seq<Transcription>
  {
    if rs == [] then log else Logged(LogAll(log, rs[..|rs| - 1]), rs[|rs| - 1])
  }

  /** The spoken results of a run, in order. */
  function SpokenOf(rs: seq<Transcription>): (s: seq<Transcription>)
    ensures |s| <= |rs|
    ensures forall k :: 0 <= k < |s| ==> Spoken(s[k]) && s[k] in rs
  {
    if rs == [] then []
    else SpokenOf(rs[..|rs| - 1]) + (if Spoken(rs[|rs| - 1]) then [rs[|rs| - 1]] else [])
  }

  /** The last `n` entries of a sequence, or all of it when it is shorter. */
  function LastN(s: seq<Transcription>, n: nat): (r: seq<Transcription>)
    ensures |r| <= n && |r| <= |s| && r == s[|s| - |r|..]
    ensures |s| <= n ==> r == s
  {
    if |s| <= n then s else s[|s| - n..]
  }

  /** A result that is not spoken leaves the log alone; a spoken one becomes the newest
      entry, the log stays within fifty, and at most the oldest entry is evicted. */
  lemma LoggedMeaning(log: seq<Transcription>, r: Transcription)
    requires |log| <= MaxResults
    ensures !Spoken(r) ==> Logged(log, r) == log
    ensures |Logged(log, r)| <= MaxResults
    ensures Spoken(r) ==> Logged(log, r) == LastN(log + [r], MaxResults)
    ensures Spoken(r) ==> Logged(log, r)[|Logged(log, r)| - 1] == r
    ensures Spoken(r) && |log| < MaxResults ==> Logged(log, r) == log + [r]
    ensures Spoken(r) && |log| == MaxResults ==> Logged(log, r) == log[1..] + [r]
  {
    if Spoken(r) && |log| == MaxResults {
      assert (log + [r])[1..] == log[1..] + [r];
    }
  }

  /** Logging a run of results keeps exactly the last fifty of the old log followed by
      the spoken results. */
  lemma {:induction false} LogAllKeepsLast(log: seq<Transcription>, rs: seq<Transcription>)
    requires |log| <= MaxResults
    ensures LogAll(log, rs) == LastN(log + SpokenOf(rs), MaxResults)
  {
    if rs != [] {
      var init := rs[..|rs| - 1];
      LogAllKeepsLast(log, init);
      LoggedKeepsLast(log, rs, LogAll(log, init));
    }
  }

  /** The step of LogAllKeepsLast: logging the last result of `rs` after the others. */
  lemma LoggedKeepsLast(log: seq<Transcription>, rs: seq<Transcription>, prev: seq<Transcription>)
    requires rs != []
    requires prev == LastN(log + SpokenOf(rs[..|rs| - 1]), MaxResults)
    ensures Logged(prev, rs[|rs| - 1]) == LastN(log + SpokenOf(rs), MaxResults)
  {
    var r := rs[|rs| - 1];
    var spoken := SpokenOf(rs[..|rs| - 1]);
    var before := log + spoken;
    if Spoken(r) {
      assert SpokenOf(rs) == spoken + [r];
      AppendAfterConcat(log, spoken, r);
      LastNSnoc(before, r, MaxResults);
    } else {
      assert SpokenOf(rs) == spoken;
    }
  }

  /** Appending one element after a concatenation. */
  lemma AppendAfterConcat<T>(a: seq<T>, b: seq<T>, x: T)
    ensures a + (b + [x]) == (a + b) + [x]
  {
  }

  /** Taking the last `n` after one more entry is trimming the last `n` of before with
      that entry appended. */
  lemma LastNSnoc(s: seq<Transcription>, r: Transcription, n: nat)
    requires n > 0
    ensures LastN(s + [r], n) == (var t := LastN(s, n) + [r]; if |t| > n then t[1..] else t)
  {
    var t := LastN(s, n) + [r];
    if |s| + 1 <= n {
    } else if |s| <= n {
      assert t == s + [r];
      assert (s + [r])[|s| + 1 - n..] == t[1..];
    } else {
      var a := s[|s| - n..];
      assert LastN(s, n) == a;
      assert LastN(s + [r], n) == (s + [r])[|s| + 1 - n..];
      assert (s + [r])[|s| + 1 - n..] == s[|s| + 1 - n..] + [r];
      assert (a + [r])[1..] == a[1..] + [r];
      assert a[1..] == s[|s| + 1 - n..];
    }
  }

  /** The log never holds more than fifty results, whatever is logged. */
  lemma LogAllBounded(log: seq<Transcription>, rs: seq<Transcription>)
    requires |log| <= MaxResults
    ensures |LogAll(log, rs)| <= MaxResults
  {
    LogAllKeepsLast(log, rs);
  }

  /** What the transcriber returns for each recogniser outcome, in order. */
  function ResultsOf(outcomes: seq<EngineOutput>, language: string): (rs: seq<Transcription>)
    ensures |rs| == |outcomes|
    ensures forall k :: 0 <= k < |outcomes| ==> rs[k] == TranscribeResult(outcomes[k], language)
  {
    seq(|outcomes|, k requires 0 <= k < |outcomes| => TranscribeResult(outcomes[k], language))
  }

  /** Logging a run and then one more result is logging the longer run. */
  lemma LogAllStep(log: seq<Transcription>, rs: seq<Transcription>, r: Transcription)
    ensures LogAll(log, rs + [r]) == Logged(LogAll(log, rs), r)
  {
    assert (rs + [r])[..|rs|] == rs;
  }

  /** The recogniser's outcome on each chunk, in order. */
  function Recognised(chunks: seq<seq<real>>, engine: seq<real> -> EngineOutput): (outcomes: seq<EngineOutput>)
    ensures |outcomes| == |chunks|
    ensures forall k :: 0 <= k < |chunks| ==> outcomes[k] == engine(chunks[k])
  {
    seq(|chunks|, k requires 0 <= k < |chunks| => engine(chunks[k]))
  }

  /** The results one transcription run logs: none when the model is not loaded (the
      first chunk raises and ends the run), otherwise one per chunk taken before the stop
      request. */
  function RunResults(loaded: bool, language: string, outcomes: seq<EngineOutput>, stopAt: nat): seq<Transcription>
  {
    if !loaded then []
    else if stopAt < |outcomes| then ResultsOf(outcomes[..stopAt], language)
    else ResultsOf(outcomes, language)
  }

  /** The position of the chunk at which a run ends, if the session yields it: the first
      chunk when the model is not loaded (its transcription raises), otherwise the chunk
      before which the stop request arrives. */
  function EndingChunk(loaded: bool, stopAt: nat): (n: nat)
    ensures loaded ==> n == stopAt
  {
    if loaded then stopAt else 0
  }

  /** The results of one more chunk come after those of the chunks before it. */
  lemma ResultsOfSnoc(chunks: seq<seq<real>>, c: seq<real>, engine: seq<real> -> EngineOutput, language: string)
    ensures ResultsOf(Recognised(chunks + [c], engine), language)
      == ResultsOf(Recognised(chunks, engine), language) + [TranscribeResult(engine(c), language)]
  {
  }

  /** A run that consumed every chunk of its session without reaching its ending chunk
      logged the results of the whole session, and holds no chunk at its end. */
  lemma FinishedRun(session: Audio.Session, start: seq<real>, arrivals: seq<seq<real>>, vad: Audio.Vad,
                    engine: seq<real> -> EngineOutput, loaded: bool, language: string, stopAt: nat)
    requires session == Audio.SessionAfter(start, arrivals, vad)
    requires |session.chunks| <= EndingChunk(loaded, stopAt)
    ensures Audio.YieldingWait(start, arrivals, vad, EndingChunk(loaded, stopAt)).None?
    ensures ResultsOf(Recognised(session.chunks, engine), language)
      == RunResults(loaded, language, Recognised(session.chunks, engine), stopAt)
  {
    Audio.YieldingWaitMeaning(start, arrivals, vad, EndingChunk(loaded, stopAt));
  }

  /** A run that reached its ending chunk at wait `t`, after consuming the `n` chunks
      before it, logged the results of those `n` chunks of the session, and holds chunk
      `n` from wait `t`. */
  lemma EndedRun(start: seq<real>, arrivals: seq<seq<real>>, vad: Audio.Vad, t: nat, chunks: seq<seq<real>>,
                 engine: seq<real> -> EngineOutput, loaded: bool, language: string, stopAt: nat)
    requires t < |arrivals|
    requires Audio.SessionAfter(start, arrivals[..t], vad).chunks == chunks
    requires |chunks| == EndingChunk(loaded, stopAt)
    requires |Audio.SessionAfter(start, arrivals[..t + 1], vad).chunks| == |chunks| + 1
    ensures Audio.YieldingWait(start, arrivals, vad, |chunks|) == Some(t)
    ensures ResultsOf(Recognised(chunks, engine), language)
      == RunResults(loaded, language, Recognised(Audio.SessionAfter(start, arrivals, vad).chunks, engine), stopAt)
  {
    Audio.YieldingWaitAt(start, arrivals, vad, |chunks|, t);
    var cs := Audio.ChunksSoFar(start, arrivals, vad);
    Audio.ChunksSoFarGrow(start, arrivals, vad);
    Audio.GrowsPrefix(cs, t, |arrivals|);
    Audio.GrowsPrefix(cs, t + 1, |arrivals|);
    assert arrivals[..|arrivals|] == arrivals;
    EarlierResults(cs[|arrivals|], chunks, engine, loaded, language, stopAt);
  }

  /** When the chunks a run consumed are the first of more chunks and their number is the
      ending chunk's position, their results are what the run logs. */
  lemma EarlierResults(all: seq<seq<real>>, chunks: seq<seq<real>>, engine: seq<real> -> EngineOutput,
                       loaded: bool, language: string, stopAt: nat)
    requires |chunks| < |all| && all[..|chunks|] == chunks
    requires |chunks| == EndingChunk(loaded, stopAt)
    ensures ResultsOf(Recognised(chunks, engine), language) == RunResults(loaded, language, Recognised(all, engine), stopAt)
  {
    if loaded {
      assert Recognised(all, engine)[..stopAt] == Recognised(chunks, engine);
    }
  }

  /** `TranscriptionService`, with the module-level result list as its `results` field. */
  class TranscriptionService {
    const capture: Audio.AudioCapture
    const transcriber: Transcriber
    var isRunning: bool
    var results: seq<Transcription>

    /** The log holds at most fifty results. */
    predicate Valid()
      reads this
    {
      |results| <= MaxResults
    }

    constructor ()
      ensures fresh(capture) && fresh(transcriber)
      ensures Valid() && !isRunning && results == []
      ensures !transcriber.isLoaded && transcriber.language == Config.Language
      ensures capture.buffer == [] && !capture.isRecording
    {
      capture := new Audio.AudioCapture();
      transcriber := new Transcriber();
      isRunning := false;
      results := [];
    }

    /** `initialize`: load the model. */
    method Initialize()
      modifies transcriber
      ensures transcriber.isLoaded && transcriber.language == old(transcriber.language)
    {
      transcriber.LoadModel();
    }

    /** Logging one result (src/main.py, inside the chunk loop): append it when its text
        is not blank, then evict the oldest entry when the log holds more than fifty. */
    method LogResult(r: Transcription)
      requires Valid()
      modifies this
      ensures Valid() && isRunning == old(isRunning)
      ensures results == Logged(old(results), r)
    {
      if Strip(r.text) != "" {
        results := results + [r];
        if |results| > MaxResults {
          results := results[1..];
        }
      }
      LoggedMeaning(old(results), r);
    }

    /** `start_transcription`: nothing when already running; otherwise set the flag and
        run the capture's recording session, handing each yielded chunk to the chunk
        loop before the pass that yielded it pops its samples. The loop ends the run at
        its ending chunk: found with the flag cleared (a stop request arrived before chunk
        `stopAt`, or cancelled the run while that chunk was being transcribed), or raising
        because the model is not loaded. The generator is then never resumed, so that
        chunk's pop does not happen and the buffer keeps it. `arrivals` are the samples
        delivered during each wait of the session. */
    method StartTranscription(arrivals: seq<seq<real>>, vad: Audio.Vad, engine: seq<real> -> EngineOutput, stopAt: nat)
      requires Valid() && capture.Valid()
      modifies this, capture
      ensures Valid() && capture.Valid()
      ensures old(isRunning) ==>
        isRunning && results == old(results)
        && capture.buffer == old(capture.buffer) && capture.isRecording == old(capture.isRecording)
      ensures !old(isRunning) ==>
        var session := Audio.SessionAfter(old(capture.buffer), arrivals, vad);
        var held := Audio.YieldingWait(old(capture.buffer), arrivals, vad, EndingChunk(transcriber.isLoaded, stopAt));
        !isRunning && !capture.isRecording
        && capture.buffer == (if held.Some? then Audio.Filled(old(capture.buffer), arrivals, vad, held.value) else session.buffer)
        && results == LogAll(old(results), RunResults(transcriber.isLoaded, transcriber.language,
                                                      Recognised(session.chunks, engine), stopAt))
    {
      if isRunning {
        return;
      }
      isRunning := true;
      capture.isRecording := true;
      ghost var start := capture.buffer;
      ghost var n := EndingChunk(transcriber.isLoaded, stopAt);
      ghost var chunks: seq<seq<real>> := [];
      var count := 0;
      var go := true;
      var t := 0;
      while t < |arrivals| && go
        invariant 0 <= t <= |arrivals|
        invariant Valid() && capture.Valid() && capture.isRecording
        invariant go ==>
          isRunning && Audio.Session(capture.buffer, chunks) == Audio.SessionAfter(start, arrivals[..t], vad)
          && |chunks| == count <= n
          && results == LogAll(old(results), ResultsOf(Recognised(chunks, engine), transcriber.language))
        invariant !go ==>
          0 < t && Audio.YieldingWait(start, arrivals, vad, n) == Some(t - 1)
          && capture.buffer == Audio.Filled(start, arrivals, vad, t - 1)
          && results == LogAll(old(results), RunResults(transcriber.isLoaded, transcriber.language,
                                                        Recognised(Audio.SessionAfter(start, arrivals, vad).chunks, engine), stopAt))
      {
        ghost var before := Audio.Session(capture.buffer, chunks);
        ghost var logged := results;
        capture.AudioCallback(arrivals[t]);
        var y := capture.Take(vad);
        Audio.AfterWaitShape(capture.buffer, vad);
        Audio.RecordStep(start, arrivals, vad, t);
        if y.Some? {
          go := Consume(y.value, engine, count, stopAt);
        }
        if go {
          capture.Pop();
          if y.Some? {
            ResultsOfSnoc(chunks, y.value, engine, transcriber.language);
            LogAllStep(old(results), ResultsOf(Recognised(chunks, engine), transcriber.language),
                       TranscribeResult(engine(y.value), transcriber.language));
            chunks := chunks + [y.value];
            count := count + 1;
          }
        } else {
          EndedRun(start, arrivals, vad, t, chunks, engine, transcriber.isLoaded, transcriber.language, stopAt);
        }
        t := t + 1;
      }
      if go {
        assert arrivals[..t] == arrivals;
        FinishedRun(Audio.SessionAfter(start, arrivals, vad), start, arrivals, vad, engine,
                    transcriber.isLoaded, transcriber.language, stopAt);
      }
      isRunning := false;
      capture.StopRecording();
    }

    /** The chunk loop's turn on a yielded chunk: end the run when the flag is found
        cleared (the stop request arrives before chunk `stopAt`, and `count` chunks were
        handled before this one) or when transcription raises because the model is not
        loaded; otherwise log the chunk's result and go on. */
    method Consume(chunk: seq<real>, engine: seq<real> -> EngineOutput, count: nat, stopAt: nat) returns (go: bool)
      requires Valid() && isRunning
      modifies this
      ensures Valid()
      ensures go <==> transcriber.isLoaded && count != stopAt
      ensures go ==> isRunning && results == Logged(old(results), TranscribeResult(engine(chunk), transcriber.language))
      ensures !go ==> results == old(results)
    {
      if count == stopAt {
        isRunning := false;
      }
      if !isRunning {
        return false;
      }
      var r := transcriber.Transcribe(engine(chunk), false);
      if r.Failure? {
        return false;
      }
      LogResult(r.value);
      return true;
    }

    /** POST /start: report "already_running" when running; otherwise run a transcription
        and report "started". */
    method StartRequest(arrivals: seq<seq<real>>, vad: Audio.Vad, engine: seq<real> -> EngineOutput, stopAt: nat)
      returns (status: string)
      requires Valid() && capture.Valid()
      modifies this, capture
      ensures Valid() && capture.Valid()
      ensures old(isRunning) <==> status == "already_running"
      ensures !old(isRunning) <==> status == "started"
      ensures old(isRunning) ==>
        isRunning && results == old(results)
        && capture.buffer == old(capture.buffer) && capture.isRecording == old(capture.isRecording)
      ensures !old(isRunning) ==>
        var session := Audio.SessionAfter(old(capture.buffer), arrivals, vad);
        var held := Audio.YieldingWait(old(capture.buffer), arrivals, vad, EndingChunk(transcriber.isLoaded, stopAt));
        !isRunning && !capture.isRecording
        && capture.buffer == (if held.Some? then Audio.Filled(old(capture.buffer), arrivals, vad, held.value) else session.buffer)
        && results == LogAll(old(results), RunResults(transcriber.isLoaded, transcriber.language,
                                                      Recognised(session.chunks, engine), stopAt))
    {
      if isRunning {
        return "already_running";
      }
      StartTranscription(arrivals, vad, engine, stopAt);
      status := "started";
    }

    /** `stop_transcription`: clear the flag and stop the capture. */
    method StopTranscription()
      modifies this, capture
      ensures !isRunning && results == old(results)
      ensures !capture.isRecording && capture.buffer == old(capture.buffer)
    {
      isRunning := false;
      capture.StopRecording();
    }

    /** `cleanup`: stop, then unload the model. */
    method Cleanup()
      modifies this, capture, transcriber
      ensures !isRunning && results == old(results)
      ensures !capture.isRecording && !transcriber.isLoaded
    {
      StopTranscription();
      transcriber.UnloadModel();
    }

    /** GET /results: the log, its length and the running flag. */
    method GetResults() returns (log: seq<Transcription>, count: nat, running: bool)
      requires Valid()
      ensures log == results && count == |log| && running == isRunning
      ensures count <= MaxResults
    {
      log := results;
      count := |results|;
      running := isRunning;
    }

    /** DELETE /results: empty the log. */
    method ClearResults() returns (status: string)
      modifies this
      ensures Valid() && results == [] && isRunning == old(isRunning)
      ensures status == "cleared"
    {
      results := [];
      status := "cleared";
    }
  }
}
