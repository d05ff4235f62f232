/** The upload transcription server of backend/main.py: the two-slot engine pool
    (`model_lock`, `get_available_model`, `release_model`) and the `transcribe_audio`
    request, which filters the recognised text and segments against the hallucination
    phrases and gives each kept segment the speaker of the first turn that contains its
    start or its end.

    The recogniser's segments and language, and the diarization pipeline's turns, are
    inputs. */
module Backend {
  import opened Wrappers
  import opened Transcript
  import Transcribe
  import Diarization

  // ---------------------------------------------------------------------------
  // The engine pool

  /** The two engine slots, "1" and "2". */
  datatype SlotId = One | Two
  {
    function Name(): (s: string)
      ensures |s| == 1
    {
      if One? then "1" else "2"
    }
  }

  /** `model_lock`: which slots are busy. */
  datatype Locks = Locks(one: bool, two: bool)
  {
    function Busy(id: SlotId): bool
    {
      if id.One? then one else two
    }

    function With(id: SlotId, busy: bool): (l: Locks)
      ensures l.Busy(id) == busy
      ensures forall other: SlotId :: other != id ==> l.Busy(other) == Busy(other)
    {
      if id.One? then Locks(busy, two) else Locks(one, busy)
    }
  }

  /** The state at start-up: both slots free. */
  const Free := Locks(false, false)

  /** `get_available_model`: slot "1" when it is free, else slot "2" when it is free,
      else slot "1" again; the slot handed out is marked busy. */
  function Acquire(l: Locks): (r: (SlotId, Locks))
    ensures r.1 == l.With(r.0, true)
  {
    if !l.one then (One, l.With(One, true))
    else if !l.two then (Two, l.With(Two, true))
    else (One, l.With(One, true))
  }

  /** `release_model`: mark one slot free. */
  function Release(l: Locks, id: SlotId): (r: Locks)
    ensures !r.Busy(id)
    ensures forall other: SlotId :: other != id ==> r.Busy(other) == l.Busy(other)
  {
    l.With(id, false)
  }

  /** Acquire prefers a free slot, slot "1" first: the slot handed out was free whenever
      some slot was, and it is busy afterwards with the other slot unchanged. */
  lemma AcquireMeaning(l: Locks)
    ensures var (id, after) := Acquire(l);
      after.Busy(id)
      && (forall other: SlotId :: other != id ==> after.Busy(other) == l.Busy(other))
      && (!l.one ==> id == One)
      && (l.one && !l.two ==> id == Two)
      && ((!l.one || !l.two) ==> !l.Busy(id))
  {
  }

  /** Under contention (both slots busy) acquire hands out slot "1" a second time and the
      state does not change: two requests then share one engine. */
  lemma ContentionSharesSlotOne(l: Locks)
    requires l.one && l.two
    ensures Acquire(l) == (One, l)
  {
  }

  /** Three requests arriving at a fresh pool get slots "1", "2" and "1". */
  lemma ThreeRequests()
    ensures var (a, l1) := Acquire(Free);
      var (b, l2) := Acquire(l1);
      var (c, l3) := Acquire(l2);
      a == One && b == Two && c == One && l3 == Locks(true, true)
  {
  }

  /** Releasing the same slot twice, as the `finally` and `except` paths of a failed
      request do, is releasing it once. */
  lemma ReleaseIdempotent(l: Locks, id: SlotId)
    ensures Release(Release(l, id), id) == Release(l, id)
  {
  }

  /** Acquiring from a pool with a free slot and releasing what was handed out restores
      the pool. */
  lemma AcquireReleaseRestores(l: Locks)
    requires !l.one || !l.two
    ensures var (id, after) := Acquire(l); Release(after, id) == l
  {
  }

  /** Under contention the first of the two holders of slot "1" to finish marks it free
      while the other is still using it. */
  lemma SharedSlotFreedEarly(l: Locks)
    requires l.one && l.two
    ensures var (id, after) := Acquire(l); !Release(after, id).Busy(id) && id == One
  {
  }

  // ---------------------------------------------------------------------------
  // Speakers by endpoint containment

  /** A diarization turn as the server collects it: `{"start", "end", "speaker"}`. */
  datatype SpeakerTurn = SpeakerTurn(start: real, end: real, speaker: string)

  /** The turn contains the instant, both bounds included. */
  predicate Covers(t: SpeakerTurn, x: real)
  {
    t.start <= x <= t.end
  }

  /** The turn contains the segment's start or its end. */
  predicate Touches(t: SpeakerTurn, start: real, end: real)
  {
    Covers(t, start) || Covers(t, end)
  }

  /** The index of the first turn that touches the segment, if any. */
  function FirstTouching(turns: seq<SpeakerTurn>, start: real, end: real): (r: Option<nat>)
    ensures r.None? <==> forall k :: 0 <= k < |turns| ==> !Touches(turns[k], start, end)
    ensures r.Some? ==>
      r.value < |turns| && Touches(turns[r.value], start, end)
      && forall k :: 0 <= k < r.value ==> !Touches(turns[k], start, end)
  {
    if turns == [] then None
    else if Touches(turns[0], start, end) then Some(0)
    else
      match FirstTouching(turns[1..], start, end)
      case None => None
      case Some(j) => Some(j + 1)
  }

  /** The speaker of the first touching turn, or "Unknown". */
  function SpeakerAt(turns: seq<SpeakerTurn>, start: real, end: real): string
  {
    match FirstTouching(turns, start, end)
    case None => Unknown
    case Some(j) => turns[j].speaker
  }

  /** A turn lying strictly inside a segment contains neither endpoint, so it never gives
      the segment its speaker, however long it is. */
  lemma InnerTurnDoesNotTouch(t: SpeakerTurn, start: real, end: real)
    requires start < t.start && t.end < end
    ensures !Touches(t, start, end)
  {
  }

  /** Containment is not the overlap rule of the diarizer: a segment that wholly covers
      a single turn gets that turn's speaker by overlap, but "Unknown" here. */
  lemma ContainmentDiffersFromOverlap()
    ensures var seg := Segment(0.0, 10.0, "x", Unknown);
      var turn := Diarization.Turn(2.0, 3.0, 1.0, "A");
      Diarization.AssignedSpeaker(seg, [turn]) == "A"
      && SpeakerAt([SpeakerTurn(turn.start, turn.end, turn.speaker)], seg.start, seg.end) == Unknown
  {
    var seg := Segment(0.0, 10.0, "x", Unknown);
    var turn := Diarization.Turn(2.0, 3.0, 1.0, "A");
    assert Diarization.Overlap(seg, turn) == 1.0;
  }

  // ---------------------------------------------------------------------------
  // The request

  /** The kept segments with their speakers: a segment is dropped when its filtered text
      is empty, and otherwise carries that text and the speaker of the first touching
      turn. */
  function Attach(raw: seq<RawSegment>, turns: seq<SpeakerTurn>, phrases: seq<string>): seq<Segment>
  {
    if raw == [] then []
    else Attach(raw[..|raw| - 1], turns, phrases) + AttachOne(raw[|raw| - 1], turns, phrases)
  }

  /** One segment as the server keeps it: nothing when its filtered text is empty,
      otherwise the segment with that text and its speaker. */
  function AttachOne(s: RawSegment, turns: seq<SpeakerTurn>, phrases: seq<string>): seq<Segment>
  {
    var text := FilteredBy(s.text, phrases);
    if text == "" then [] else [Segment(s.start, s.end, text, SpeakerAt(turns, s.start, s.end))]
  }

  /** The segments without their speakers. */
  function Unattributed(segs: seq<Segment>): (r: seq<Segment>)
    ensures |r| == |segs|
    ensures forall k :: 0 <= k < |segs| ==> r[k] == segs[k].(speaker := Unknown)
  {
    seq(|segs|, k requires 0 <= k < |segs| => segs[k].(speaker := Unknown))
  }

  /** Apart from the speakers, the server keeps exactly the segments the live
      transcriber keeps: the same ones, in order, with the same start, end and text. */
  lemma {:induction false} AttachKeepsAsTranscriber(raw: seq<RawSegment>, turns: seq<SpeakerTurn>, phrases: seq<string>)
    ensures Unattributed(Attach(raw, turns, phrases)) == Transcribe.KeptSegments(raw, phrases)
  {
    if raw != [] {
      var n := |raw| - 1;
      AttachKeepsAsTranscriber(raw[..n], turns, phrases);
      Transcribe.KeptSegmentsStep(raw, phrases, n);
      assert raw[..n + 1] == raw;
      UnattributedStep(Attach(raw[..n], turns, phrases), raw[n], turns, phrases);
    }
  }

  /** Dropping the speakers after attaching one more segment adds what the transcriber
      adds for it. */
  lemma UnattributedStep(prev: seq<Segment>, s: RawSegment, turns: seq<SpeakerTurn>, phrases: seq<string>)
    ensures Unattributed(prev + AttachOne(s, turns, phrases))
      == Unattributed(prev) + (if Transcribe.KeepSegment(s, phrases) then [Transcribe.Attributed(s)] else [])
  {
    FilteredIffKept(s, phrases);
    var text := FilteredBy(s.text, phrases);
    if text != "" {
      UnattributedSnoc(prev, Segment(s.start, s.end, text, SpeakerAt(turns, s.start, s.end)));
    } else {
      assert prev + [] == prev;
      assert Unattributed(prev) + [] == Unattributed(prev);
    }
  }

  /** A segment's filtered text is non-empty exactly when the transcriber keeps it, and
      it is then the stripped text. */
  lemma FilteredIffKept(s: RawSegment, phrases: seq<string>)
    ensures FilteredBy(s.text, phrases) != "" <==> Transcribe.KeepSegment(s, phrases)
    ensures FilteredBy(s.text, phrases) != "" ==> FilteredBy(s.text, phrases) == Strip(s.text)
  {
  }

  /** Dropping the speakers of one more segment. */
  lemma UnattributedSnoc(segs: seq<Segment>, seg: Segment)
    ensures Unattributed(segs + [seg]) == Unattributed(segs) + [seg.(speaker := Unknown)]
  {
  }

  /** Each attached segment's speaker is that of the first turn touching it, and
      "Unknown" when no turn does. */
  lemma {:induction false} AttachSpeakers(raw: seq<RawSegment>, turns: seq<SpeakerTurn>, phrases: seq<string>)
    ensures forall s :: s in Attach(raw, turns, phrases) ==> s.speaker == SpeakerAt(turns, s.start, s.end)
  {
    if raw != [] {
      AttachSpeakers(raw[..|raw| - 1], turns, phrases);
    }
  }

  /** With no turns every segment's speaker is "Unknown". */
  lemma NoTurnsAllUnknown(raw: seq<RawSegment>, phrases: seq<string>)
    ensures forall s :: s in Attach(raw, [], phrases) ==> s.speaker == Unknown
  {
    AttachSpeakers(raw, [], phrases);
  }

  /** One more raw segment adds what the server keeps of it. */
  lemma AttachStep(raw: seq<RawSegment>, turns: seq<SpeakerTurn>, phrases: seq<string>, i: nat)
    requires i < |raw|
    ensures Attach(raw[..i + 1], turns, phrases) == Attach(raw[..i], turns, phrases) + AttachOne(raw[i], turns, phrases)
  {
    assert raw[..i + 1][..i] == raw[..i];
  }

  /** The concatenated text of the recognised segments. */
  function FullText(raw: seq<RawSegment>): string
  {
    if raw == [] then "" else FullText(raw[..|raw| - 1]) + raw[|raw| - 1].text
  }

  /** Every segment's text occurs in the full text, and just after the texts before it. */
  lemma {:induction false} SegmentTextInFullText(raw: seq<RawSegment>, k: nat)
    requires k < |raw|
    ensures OccursAt(FullText(raw), raw[k].text, |FullText(raw[..k])|)
  {
    var init := raw[..|raw| - 1];
    var prev := FullText(init);
    var t := raw[|raw| - 1].text;
    if k == |raw| - 1 {
      assert init == raw[..k];
      assert (prev + t)[|prev|..|prev| + |t|] == t;
    } else {
      SegmentTextInFullText(init, k);
      assert init[..k] == raw[..k];
      var i := |FullText(raw[..k])|;
      assert (prev + t)[i..i + |raw[k].text|] == prev[i..i + |raw[k].text|];
    }
  }

  /** What the recogniser produced for the upload: its segments and its language, or a
      raised error with its message. */
  datatype Recognition =
    | Recognised(segments: seq<RawSegment>, language: string)
    | RecogniserRaised(message: string)

  /** The response to a successful request. */
  function Response(raw: seq<RawSegment>, language: string, turns: seq<SpeakerTurn>): Transcription
  {
    Transcription(FilteredBy(FullText(raw), UnwantedPhrases), Attach(raw, turns, UnwantedPhrases), language)
  }

  /** The detail of the HTTP 500 error the request reports. */
  function FailedDetail(message: string): string
  {
    "Transcription failed: " + message
  }

  /** The message of the content-type check's error, as `str` renders it. */
  const NotAudioMessage: string := "400: File must be an audio file"

  /** The speaker loop: the speaker of the first turn containing the segment's start or
      end, "Unknown" when none does. */
  method FindSpeaker(turns: seq<SpeakerTurn>, start: real, end: real) returns (speaker: string)
    ensures speaker == SpeakerAt(turns, start, end)
  {
    speaker := Unknown;
    var j := 0;
    while j < |turns|
      invariant 0 <= j <= |turns|
      invariant forall k :: 0 <= k < j ==> !Touches(turns[k], start, end)
    {
      if turns[j].start <= start <= turns[j].end || turns[j].start <= end <= turns[j].end {
        speaker := turns[j].speaker;
        return;
      }
      j := j + 1;
    }
  }

  /** The segment loop of `transcribe_audio`: filter each segment's text, skip it when
      that leaves nothing, and otherwise append it with its speaker. */
  method SegmentsWithSpeakers(raw: seq<RawSegment>, turns: seq<SpeakerTurn>, phrases: seq<string>)
    returns (segments: seq<Segment>)
    ensures segments == Attach(raw, turns, phrases)
  {
    segments := [];
    var i := 0;
    while i < |raw|
      invariant 0 <= i <= |raw|
      invariant segments == Attach(raw[..i], turns, phrases)
    {
      AttachStep(raw, turns, phrases, i);
      segments := AppendWithSpeaker(segments, raw[i], turns, phrases);
      i := i + 1;
    }
    assert raw[..i] == raw;
  }

  /** The body of the segment loop: filter the segment's text and, when something is
      left, append the segment with that text and its speaker. */
  method AppendWithSpeaker(segments: seq<Segment>, s: RawSegment, turns: seq<SpeakerTurn>, phrases: seq<string>)
    returns (next: seq<Segment>)
    ensures next == segments + AttachOne(s, turns, phrases)
  {
    var segmentText := FilterText(s.text, phrases);
    next := segments;
    if segmentText != "" {
      var speaker := FindSpeaker(turns, s.start, s.end);
      next := next + [Segment(s.start, s.end, segmentText, speaker)];
    }
  }

  /** The conversion loop: the recognised segments' texts joined into the full text. */
  method JoinTexts(raw: seq<RawSegment>) returns (fullText: string)
    ensures fullText == FullText(raw)
  {
    fullText := "";
    var i := 0;
    while i < |raw|
      invariant 0 <= i <= |raw|
      invariant fullText == FullText(raw[..i])
    {
      assert raw[..i + 1][..i] == raw[..i];
      fullText := fullText + raw[i].text;
      i := i + 1;
    }
    assert raw[..i] == raw;
  }

  /** The server's engine pool, `model_lock`, and the requests that use it. */
  class EnginePool {
    var one: bool
    var two: bool

    function State(): Locks
      reads this
    {
      Locks(one, two)
    }

    constructor ()
      ensures State() == Free
    {
      one := false;
      two := false;
    }

    /** `get_available_model`. */
    method GetAvailableModel() returns (id: SlotId)
      modifies this
      ensures (id, State()) == Acquire(old(State()))
    {
      if !one {
        one := true;
        return One;
      }
      if !two {
        two := true;
        return Two;
      }
      one := true;
      return One;
    }

    /** `release_model`. */
    method ReleaseModel(id: SlotId)
      modifies this
      ensures State() == Release(old(State()), id)
    {
      if id.One? {
        one := false;
      } else {
        two := false;
      }
    }

    /** `transcribe_audio`: refuse a non-audio upload (reported, like every error, as a
        failure with the 500 detail); otherwise take an engine, recognise, filter the
        text and the segments, attach speakers from the turns, and release the engine.
        When the recogniser raises, the engine is released by the `finally` and again
        by the `except`. `turns` are the turns gathered before any failure of the pipeline: none when there
        is no pipeline, and only those read before the error when it fails midway. */
    method TranscribeAudio(isAudio: bool, recognition: Recognition, turns: seq<SpeakerTurn>)
      returns (r: Result<Transcription>)
      modifies this
      ensures !isAudio ==> r == Failure(FailedDetail(NotAudioMessage)) && State() == old(State())
      ensures isAudio ==>
        var (id, busy) := Acquire(old(State()));
        State() == Release(busy, id)
        && (recognition.RecogniserRaised? ==> r == Failure(FailedDetail(recognition.message)))
        && (recognition.Recognised? ==>
              r == Success(Response(recognition.segments, recognition.language, turns)))
    {
      if !isAudio {
        return Failure(FailedDetail(NotAudioMessage));
      }
      var id := GetAvailableModel();
      ghost var busy := State();
      if recognition.RecogniserRaised? {
        ReleaseModel(id);
        ReleaseModel(id);
        ReleaseIdempotent(busy, id);
        return Failure(FailedDetail(recognition.message));
      }
      var fullText := JoinTexts(recognition.segments);
      var filteredText := FilterText(fullText, UnwantedPhrases);
      var segments := SegmentsWithSpeakers(recognition.segments, turns, UnwantedPhrases);
      ReleaseModel(id);
      r := Success(Transcription(filteredText, segments, recognition.language));
    }
  }
}
