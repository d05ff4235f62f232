/** The transcriber of src/transcribe.py: the loaded flag, the guard on transcription,
    the filtering of the recogniser's text and segments against the hallucination
    phrases, and the default result on failure.

    The recogniser itself is an input: what it returned (its text, its segments and
    its language, the last two possibly missing), or that it raised. */
module Transcribe {
  import opened Wrappers
  import opened Transcript
  import Config

  /** The recogniser's outcome on one chunk. */
  datatype EngineOutput =
    | EngineResult(text: string, segments: Option<seq<RawSegment>>, language: Option<string>)
    | EngineRaised

  /** The message of the error raised when transcribing before loading. */
  const NotLoadedMessage: string := "Model not loaded. Call load_model() first."

  /** A raw segment is kept when its stripped text is non-empty and matches no phrase. */
  predicate KeepSegment(s: RawSegment, phrases: seq<string>)
  {
    var t := Strip(s.text);
    !MatchesAny(t, phrases) && t != ""
  }

  /** The kept form of a segment: stripped text, speaker not yet known. */
  function Attributed(s: RawSegment): Segment
  {
    Segment(s.start, s.end, Strip(s.text), Unknown)
  }

  /** The kept segments, in order. */
  function KeptSegments(raw: seq<RawSegment>, phrases: seq<string>): seq<Segment>
  {
    if raw == [] then []
    else
      var last := raw[|raw| - 1];
      KeptSegments(raw[..|raw| - 1], phrases) + (if KeepSegment(last, phrases) then [Attributed(last)] else [])
  }

  /** Which raw segments are kept. */
  function Marks(raw: seq<RawSegment>, phrases: seq<string>): (m: seq<bool>)
    ensures |m| == |raw|
    ensures forall i :: 0 <= i < |raw| ==> (m[i] <==> KeepSegment(raw[i], phrases))
  {
    seq(|raw|, i requires 0 <= i < |raw| => KeepSegment(raw[i], phrases))
  }

  /** The positions of the marked entries, in increasing order. */
  function TrueIndices(m: seq<bool>): (idx: seq<nat>)
    ensures forall k :: 0 <= k < |idx| ==> idx[k] < |m| && m[idx[k]]
  {
    if m == [] then []
    else
      var rest := TrueIndices(m[..|m| - 1]);
      rest + (if m[|m| - 1] then [|m| - 1] else [])
  }

  /** The positions are strictly increasing and every marked position is among them. */
  lemma {:induction false} TrueIndicesOrderedComplete(m: seq<bool>)
    ensures var idx := TrueIndices(m);
      (forall k, l :: 0 <= k < l < |idx| ==> idx[k] < idx[l])
      && (forall i :: 0 <= i < |m| && m[i] ==> i in idx)
  {
    if m != [] {
      var n := |m| - 1;
      TrueIndicesOrderedComplete(m[..n]);
      var rest := TrueIndices(m[..n]);
      assert forall i :: 0 <= i < n && m[i] ==> m[..n][i];
      assert TrueIndices(m) == rest + (if m[n] then [n] else []);
    }
  }

  /** The entries of `src` whose mark is set, in order. */
  function Select<T>(src: seq<T>, m: seq<bool>): seq<T>
    requires |m| == |src|
  {
    if src == [] then []
    else
      var n := |src| - 1;
      Select(src[..n], m[..n]) + (if m[n] then [src[n]] else [])
  }

  /** The selected entries are the entries at the marked positions, in order. */
  lemma {:induction false} SelectAtTrueIndices<T>(src: seq<T>, m: seq<bool>)
    requires |m| == |src|
    ensures var sel := Select(src, m);
      var idx := TrueIndices(m);
      |sel| == |idx| && forall k :: 0 <= k < |sel| ==> sel[k] == src[idx[k]]
  {
    if src != [] {
      var n := |src| - 1;
      SelectAtTrueIndices(src[..n], m[..n]);
      var rest := TrueIndices(m[..n]);
      var prev := Select(src[..n], m[..n]);
      assert TrueIndices(m) == rest + (if m[n] then [n] else []);
      forall k | 0 <= k < |rest|
        ensures prev[k] == src[rest[k]]
      {
        assert src[..n][rest[k]] == src[rest[k]];
      }
    }
  }

  /** Every segment in its kept form. */
  function AttributedAll(raw: seq<RawSegment>): (r: seq<Segment>)
    ensures |r| == |raw| && forall k :: 0 <= k < |raw| ==> r[k] == Attributed(raw[k])
  {
    seq(|raw|, k requires 0 <= k < |raw| => Attributed(raw[k]))
  }

  /** The kept segments are the kept forms of the marked segments. */
  lemma {:induction false} KeptSegmentsSelect(raw: seq<RawSegment>, phrases: seq<string>)
    ensures KeptSegments(raw, phrases) == Select(AttributedAll(raw), Marks(raw, phrases))
  {
    if raw != [] {
      var n := |raw| - 1;
      KeptSegmentsSelect(raw[..n], phrases);
      assert AttributedAll(raw)[..n] == AttributedAll(raw[..n]);
      assert Marks(raw, phrases)[..n] == Marks(raw[..n], phrases);
    }
  }

  /** The kept segments are the kept raw segments, in their original order: each keeps
      its start and end, carries its stripped text and the speaker "Unknown"; with
      TrueIndicesOrderedComplete, no segment that passes the filter is lost. */
  lemma KeptSegmentsAreSubsequence(raw: seq<RawSegment>, phrases: seq<string>)
    ensures var kept := KeptSegments(raw, phrases);
      var idx := TrueIndices(Marks(raw, phrases));
      |kept| == |idx|
      && forall k :: 0 <= k < |kept| ==> kept[k] == Attributed(raw[idx[k]])
  {
    KeptSegmentsSelect(raw, phrases);
    SelectAtTrueIndices(AttributedAll(raw), Marks(raw, phrases));
  }

  /** A clean segment: non-empty text that matches no phrase and has no surrounding
      whitespace, and the speaker "Unknown". */
  predicate Clean(s: Segment, phrases: seq<string>)
  {
    s.text != "" && !MatchesAny(s.text, phrases) && Strip(s.text) == s.text && s.speaker == Unknown
  }

  /** Every kept segment is clean. */
  lemma {:induction false} KeptSegmentsClean(raw: seq<RawSegment>, phrases: seq<string>)
    ensures forall s :: s in KeptSegments(raw, phrases) ==> Clean(s, phrases)
  {
    if raw != [] {
      var init := raw[..|raw| - 1];
      KeptSegmentsClean(init, phrases);
      var last := raw[|raw| - 1];
      StripIdempotent(last.text);
    }
  }

  /** A segment as the recogniser would report it. */
  function AsRaw(s: Segment): RawSegment
  {
    RawSegment(s.start, s.end, s.text)
  }

  function AllAsRaw(segs: seq<Segment>): (r: seq<RawSegment>)
    ensures |r| == |segs|
    ensures forall k :: 0 <= k < |segs| ==> r[k] == AsRaw(segs[k])
  {
    seq(|segs|, k requires 0 <= k < |segs| => AsRaw(segs[k]))
  }

  /** Filtering already-filtered segments keeps all of them unchanged. */
  lemma {:induction false} SegmentFilterIdempotent(raw: seq<RawSegment>, phrases: seq<string>)
    ensures KeptSegments(AllAsRaw(KeptSegments(raw, phrases)), phrases) == KeptSegments(raw, phrases)
  {
    KeptSegmentsClean(raw, phrases);
    ReFilterClean(KeptSegments(raw, phrases), phrases);
  }

  /** Segments with clean text and unknown speaker survive filtering as they are. */
  lemma {:induction false} ReFilterClean(segs: seq<Segment>, phrases: seq<string>)
    requires forall s :: s in segs ==> Clean(s, phrases)
    ensures KeptSegments(AllAsRaw(segs), phrases) == segs
  {
    if segs != [] {
      var init := segs[..|segs| - 1];
      var last := segs[|segs| - 1];
      forall s | s in init
        ensures Clean(s, phrases)
      {
        assert s in segs;
      }
      ReFilterClean(init, phrases);
      var raw := AllAsRaw(segs);
      assert raw[..|raw| - 1] == AllAsRaw(init);
      assert KeepSegment(raw[|raw| - 1], phrases) && Attributed(raw[|raw| - 1]) == last by {
        assert last in segs;
        assert Clean(last, phrases);
      }
      assert KeptSegments(raw, phrases) == KeptSegments(raw[..|raw| - 1], phrases) + [Attributed(raw[|raw| - 1])];
      assert segs == init + [last];
    }
  }

  /** The result the transcriber returns for one recogniser outcome: the filtered text,
      the kept segments, and the reported language or the configured one; the empty
      result in the configured language when the recogniser raised. */
  function TranscribeResult(engine: EngineOutput, language: string): Transcription
  {
    match engine
    case EngineRaised => Transcription("", [], language)
    case EngineResult(text, segments, lang) =>
      Transcription(Filtered(text), KeptSegments(segments.GetOr([]), UnwantedPhrases), lang.GetOr(language))
  }

  /** What the result promises: text filtered as by the phrase rule, each segment a clean
      kept one, the language the recogniser's or the configured one. */
  lemma TranscribeResultMeaning(engine: EngineOutput, language: string)
    ensures var r := TranscribeResult(engine, language);
      (engine.EngineRaised? ==> r == Transcription("", [], language))
      && (engine.EngineResult? ==>
            (r.text == "" <==> Strip(engine.text) == "" || IsHallucination(Strip(engine.text)))
            && (r.text != "" ==> r.text == Strip(engine.text))
            && (engine.language.None? ==> r.language == language)
            && (engine.segments.None? ==> r.segments == []))
  {
    if engine.EngineResult? {
      FilteredCases(engine.text);
    }
  }

  /** One more raw segment adds itself, attributed, when it is kept, and nothing otherwise. */
  lemma KeptSegmentsStep(raw: seq<RawSegment>, phrases: seq<string>, i: nat)
    requires i < |raw|
    ensures KeptSegments(raw[..i + 1], phrases)
      == KeptSegments(raw[..i], phrases) + (if KeepSegment(raw[i], phrases) then [Attributed(raw[i])] else [])
  {
    assert raw[..i + 1][..i] == raw[..i];
  }

  /** One step of the segment loop, stated with the loop's own stripped text and flag. */
  lemma FilterStep(raw: seq<RawSegment>, phrases: seq<string>, i: nat, t: string, skip: bool,
                   before: seq<Segment>, after: seq<Segment>)
    requires i < |raw| && t == Strip(raw[i].text) && (skip <==> MatchesAny(t, phrases))
    requires before == KeptSegments(raw[..i], phrases)
    requires after == if !skip && t != "" then before + [Segment(raw[i].start, raw[i].end, t, Unknown)] else before
    ensures after == KeptSegments(raw[..i + 1], phrases)
  {
    KeptSegmentsStep(raw, phrases, i);
  }

  /** The inner loop of the segment filter: look for the first phrase that matches the
      stripped segment text, and stop there. */
  method SkipSegment(segmentText: string, phrases: seq<string>) returns (skip: bool)
    ensures skip <==> MatchesAny(segmentText, phrases)
  {
    skip := false;
    var j := 0;
    while j < |phrases|
      invariant 0 <= j <= |phrases|
      invariant forall k :: 0 <= k < j ==> !MatchesPhrase(segmentText, phrases[k])
    {
      if Contains(segmentText, phrases[j]) && |segmentText| <= |phrases[j]| + 5 {
        skip := true;
        return;
      }
      j := j + 1;
    }
  }

  /** The segment loop of `_transcribe_sync`: strip each segment's text and keep the
      segment unless a phrase matches it or the text is empty. */
  method FilterSegments(segments: seq<RawSegment>, phrases: seq<string>) returns (filtered: seq<Segment>)
    ensures filtered == KeptSegments(segments, phrases)
  {
    filtered := [];
    var i := 0;
    while i < |segments|
      invariant 0 <= i <= |segments|
      invariant filtered == KeptSegments(segments[..i], phrases)
    {
      var segmentText := Strip(segments[i].text);
      var skipSegment := SkipSegment(segmentText, phrases);
      ghost var before := filtered;
      if !skipSegment && segmentText != "" {
        filtered := filtered + [Segment(segments[i].start, segments[i].end, segmentText, Unknown)];
      }
      FilterStep(segments, phrases, i, segmentText, skipSegment, before, filtered);
      i := i + 1;
    }
    assert segments[..i] == segments;
  }

  /** `MLXTranscriber`: the configured language and the loaded flag. */
  class Transcriber {
    var language: string
    var isLoaded: bool

    constructor ()
      ensures language == Config.Language && !isLoaded
    {
      language := Config.Language;
      isLoaded := false;
    }

    /** `load_model`. */
    method LoadModel()
      modifies this
      ensures isLoaded && language == old(language)
    {
      isLoaded := true;
    }

    /** `unload_model`. */
    method UnloadModel()
      modifies this
      ensures !isLoaded && language == old(language)
    {
      isLoaded := false;
    }

    /** `_transcribe_sync`: the filtered text, the kept segments and the reported
        language, or the empty result when the recogniser raised. */
    method TranscribeSync(engine: EngineOutput) returns (r: Transcription)
      ensures r == TranscribeResult(engine, language)
    {
      if engine.EngineRaised? {
        return Transcription("", [], language);
      }
      var filteredText := FilterText(engine.text, UnwantedPhrases);
      var filteredSegments := FilterSegments(engine.segments.GetOr([]), UnwantedPhrases);
      r := Transcription(filteredText, filteredSegments, engine.language.GetOr(language));
    }

    /** `transcribe`: raise when not loaded; otherwise the synchronous result, or the
        empty result in the configured language when preparing the audio or running the
        recogniser raised. */
    method Transcribe(engine: EngineOutput, preparationRaises: bool) returns (r: Result<Transcription>)
      ensures !isLoaded ==> r == Failure(NotLoadedMessage)
      ensures isLoaded && preparationRaises ==> r == Success(Transcription("", [], language))
      ensures isLoaded && !preparationRaises ==> r == Success(TranscribeResult(engine, language))
    {
      if !isLoaded {
        return Failure(NotLoadedMessage);
      }
      if preparationRaises {
        return Success(Transcription("", [], language));
      }
      var t := TranscribeSync(engine);
      return Success(t);
    }
  }
}
