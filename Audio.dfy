/** The capture side of src/audio.py: the bounded sample buffer the input callback
    extends, the chunk extraction and pop loop of the recording loop, and the voicing
    decision that gates each chunk.

    The sound device and the voice-activity detector are inputs: the samples each
    callback delivers, the detector's verdict on each frame (which may be an error),
    and whether the sample conversion before the frame loop raised. */
module Audio {
  import opened Wrappers
  import Config

  /** `chunk_size`, `overlap_size` and `vad_frame_size` of the capture object, as the
      configuration computes them (see SizesFromConfig). */
  function ChunkSamples(): nat { 64000 }
  function OverlapSamples(): nat { 8000 }
  function FrameSamples(): nat { 160 }

  /** The sizes are the configuration's millisecond-to-sample conversions. */
  lemma SizesFromConfig()
    ensures ChunkSamples() == Config.ChunkSize()
    ensures OverlapSamples() == Config.OverlapSize()
    ensures FrameSamples() == Config.VadFrameSize()
  {
  }

  /** `maxlen` of the buffer: one chunk plus its overlap. */
  function Capacity(): (n: nat)
    ensures n > ChunkSamples()
  {
    ChunkSamples() + OverlapSamples()
  }

  /** The samples dropped from the front after each extraction. */
  function Advance(): (n: nat)
    ensures 0 < n < ChunkSamples()
    ensures n + OverlapSamples() == ChunkSamples()
  {
    ChunkSamples() - OverlapSamples()
  }

  function MinNat(a: nat, b: nat): nat { if a <= b then a else b }

  function Abs(x: real): real { if x < 0.0 then -x else x }

  /** `np.max(np.abs(s))`: the peak magnitude, attained by some sample. */
  function MaxAbs(s: seq<real>): (r: real)
    requires |s| > 0
    ensures forall k :: 0 <= k < |s| ==> Abs(s[k]) <= r
    ensures exists k :: 0 <= k < |s| && Abs(s[k]) == r
  {
    if |s| == 1 then Abs(s[0])
    else
      var init := s[..|s| - 1];
      var m := MaxAbs(init);
      assert forall k :: 0 <= k < |init| ==> init[k] == s[k];
      if Abs(s[|s| - 1]) > m then Abs(s[|s| - 1]) else m
  }

  // ---------------------------------------------------------------------------
  // The bounded buffer

  /** `deque(maxlen).extend(incoming)`: the most recent `maxlen` samples of the old
      contents followed by the new ones. */
  function KeepLast(buffer: seq<real>, incoming: seq<real>, maxlen: nat): (r: seq<real>)
    ensures |r| == MinNat(|buffer| + |incoming|, maxlen)
    ensures r == (buffer + incoming)[|buffer| + |incoming| - |r|..]
  {
    var all := buffer + incoming;
    if |all| <= maxlen then all else all[|all| - maxlen..]
  }

  /** `deque(maxlen).append(x)`: a full deque drops its oldest sample first. */
  function Push(q: seq<real>, x: real, maxlen: nat): seq<real>
    requires maxlen > 0
  {
    if |q| >= maxlen then q[|q| - maxlen + 1..] + [x] else q + [x]
  }

  /** Appending one sample at a time is extending by all of them. */
  lemma KeepLastStep(buffer: seq<real>, incoming: seq<real>, x: real, maxlen: nat)
    requires maxlen > 0
    ensures KeepLast(buffer, incoming + [x], maxlen) == Push(KeepLast(buffer, incoming, maxlen), x, maxlen)
  {
    var all := buffer + incoming;
    assert buffer + (incoming + [x]) == all + [x];
    var q := KeepLast(buffer, incoming, maxlen);
    if |all| + 1 > maxlen {
      assert (all + [x])[|all| + 1 - maxlen..] == all[|all| + 1 - maxlen..] + [x];
      if |all| > maxlen {
        assert q == all[|all| - maxlen..];
        assert q[1..] == all[|all| + 1 - maxlen..];
      }
    }
  }

  /** Two callbacks in a row extend the buffer like one callback with both deliveries,
      so the samples that arrive during one wait can be taken together. */
  lemma KeepLastConcat(buffer: seq<real>, first: seq<real>, second: seq<real>, maxlen: nat)
    ensures KeepLast(KeepLast(buffer, first, maxlen), second, maxlen) == KeepLast(buffer, first + second, maxlen)
  {
    var q := KeepLast(buffer, first, maxlen);
    var all := buffer + first;
    assert buffer + (first + second) == all + second;
    assert q + second == (all + second)[|all| - |q|..];
  }

  // ---------------------------------------------------------------------------
  // The voicing decision

  /** What the frame classifier reports on one frame. */
  datatype FrameVerdict = Speech | NonSpeech | FrameError

  /** The detector's behaviour: the verdict on each frame, and whether converting a chunk
      to 16-bit samples raised. */
  datatype Vad = Vad(classify: seq<real> -> FrameVerdict, raises: seq<real> -> bool)

  /** Voiced and classified frame counts. */
  datatype Counts = Counts(voiced: int, total: int)

  /** A speech frame counts in both, a non-speech frame only in the total, and a frame
      whose classification raised in neither. */
  function Score(v: FrameVerdict): Counts
  {
    match v
    case Speech => Counts(1, 1)
    case NonSpeech => Counts(0, 1)
    case FrameError => Counts(0, 0)
  }

  function Add(a: Counts, b: Counts): Counts
  {
    Counts(a.voiced + b.voiced, a.total + b.total)
  }

  /** The frame of `fs` samples at offset `j`. */
  function Frame(audio: seq<real>, j: nat): seq<real>
    requires j + FrameSamples() <= |audio|
  {
    audio[j..j + FrameSamples()]
  }

  /** The counts over the frames at offsets `i, i + fs, …` below `len(audio) - fs`. */
  function Tally(audio: seq<real>, classify: seq<real> -> FrameVerdict, i: nat): (c: Counts)
    decreases |audio| - i
  {
    var fs := FrameSamples();
    if i + fs < |audio| then Add(Score(classify(Frame(audio, i))), Tally(audio, classify, i + fs))
    else Counts(0, 0)
  }

  /** `_is_voiced`: true when the conversion raised; otherwise more than one frame in ten
      of those classified is speech, and false when no frame was classified. */
  function VoicedDecision(chunk: seq<real>, vad: Vad): bool
  {
    if vad.raises(chunk) then true
    else
      var c := Tally(chunk, vad.classify, 0);
      c.total > 0 && 10 * c.voiced > c.total
  }

  /** The chunk is yielded when it is voiced or its peak exceeds 0.001. */
  predicate Gate(chunk: seq<real>, vad: Vad)
    requires |chunk| > 0
  {
    VoicedDecision(chunk, vad) || MaxAbs(chunk) > 0.001
  }

  /** Without a conversion error, the chunk is voiced exactly when some frame was
      classified and the ratio of speech frames to classified frames exceeds 0.1. */
  lemma VoicedRatio(chunk: seq<real>, vad: Vad)
    requires !vad.raises(chunk)
    ensures var c := Tally(chunk, vad.classify, 0);
      VoicedDecision(chunk, vad) <==> c.total > 0 && c.voiced as real / c.total as real > 0.1
  {
    var c := Tally(chunk, vad.classify, 0);
    if c.total > 0 {
      RatioAboveTenth(c.voiced, c.total);
    }
  }

  /** `v / t > 0.1` on the reals is `10 * v > t` on the integers. */
  lemma RatioAboveTenth(v: int, t: int)
    requires t > 0
    ensures v as real / t as real > 0.1 <==> 10 * v > t
  {
    var q := v as real / t as real;
    assert q * t as real == v as real;
    assert (q - 0.1) * t as real == v as real - 0.1 * t as real;
    SignOfProduct(q - 0.1, t as real);
  }

  /** A product with a positive factor has the sign of the other factor. */
  lemma SignOfProduct(a: real, t: real)
    requires t > 0.0
    ensures a > 0.0 <==> a * t > 0.0
  {
  }

  /** The last complete frame of a chunk that is a whole number of frames (of 160
      samples) past offset `i` is never classified: changing it changes no count. */
  lemma {:induction false} LastFrameIgnored(audio: seq<real>, other: seq<real>, classify: seq<real> -> FrameVerdict,
                                            i: nat, frames: nat)
    requires |audio| == |other| >= FrameSamples()
    requires i + 160 * frames == |audio|
    requires audio[..|audio| - FrameSamples()] == other[..|other| - FrameSamples()]
    ensures Tally(audio, classify, i) == Tally(other, classify, i)
    decreases frames
  {
    var fs := FrameSamples();
    assert fs == 160;
    if i + fs < |audio| {
      assert frames >= 2;
      assert i + 2 * fs <= |audio|;
      SameFrameBeforeLast(audio, other, i);
      LastFrameIgnored(audio, other, classify, i + fs, frames - 1);
    }
  }

  /** Two chunks that agree up to their last frame agree on every frame before it. */
  lemma SameFrameBeforeLast(audio: seq<real>, other: seq<real>, i: nat)
    requires |audio| == |other| && i + 2 * FrameSamples() <= |audio|
    requires audio[..|audio| - FrameSamples()] == other[..|other| - FrameSamples()]
    ensures Frame(audio, i) == Frame(other, i)
  {
    var fs := FrameSamples();
    assert Frame(audio, i) == audio[..|audio| - fs][i..i + fs];
    assert Frame(other, i) == other[..|other| - fs][i..i + fs];
  }

  /** With no speech verdict on any frame, no frame counts as voiced. */
  lemma {:induction false} NoSpeechNoVoiced(audio: seq<real>, classify: seq<real> -> FrameVerdict, i: nat)
    requires forall j: nat :: j + FrameSamples() <= |audio| ==> classify(Frame(audio, j)) != Speech
    ensures Tally(audio, classify, i).voiced == 0
    decreases |audio| - i
  {
    var fs := FrameSamples();
    if i + fs < |audio| {
      NoSpeechNoVoiced(audio, classify, i + fs);
    }
  }

  /** With every frame failing classification, nothing is counted. */
  lemma {:induction false} AllErrorsNoTotal(audio: seq<real>, classify: seq<real> -> FrameVerdict, i: nat)
    requires forall j: nat :: j + FrameSamples() <= |audio| ==> classify(Frame(audio, j)) == FrameError
    ensures Tally(audio, classify, i) == Counts(0, 0)
    decreases |audio| - i
  {
    var fs := FrameSamples();
    if i + fs < |audio| {
      AllErrorsNoTotal(audio, classify, i + fs);
    }
  }

  /** A frame whose classification raises counts in neither total: a classifier that
      raises on the frame at `j` (`n` frames past `i`) and agrees with `classify` on every
      other frame counts exactly that frame's score less. */
  lemma {:induction false} ErrorFrameUncounted(audio: seq<real>, classify: seq<real> -> FrameVerdict,
                                               other: seq<real> -> FrameVerdict, i: nat, j: nat, n: nat)
    requires j == i + n * FrameSamples() && j + FrameSamples() < |audio|
    requires other(Frame(audio, j)) == FrameError
    requires forall m: nat :: i <= m && m + FrameSamples() <= |audio| && m != j ==>
      other(Frame(audio, m)) == classify(Frame(audio, m))
    ensures Add(Tally(audio, other, i), Score(classify(Frame(audio, j)))) == Tally(audio, classify, i)
    decreases n
  {
    var fs := FrameSamples();
    if n == 0 {
      ErrorFrameFirst(audio, classify, other, i);
    } else {
      assert fs == 160 && j == (i + fs) + (n - 1) * fs && i + fs <= j;
      ErrorFrameUncounted(audio, classify, other, i + fs, j, n - 1);
      assert other(Frame(audio, i)) == classify(Frame(audio, i));
      TallyStepAgreeing(audio, classify, other, i, Score(classify(Frame(audio, j))));
    }
  }

  /** Two classifiers that agree on the frame at `i`: a relation `rest + d == rest'`
      between their counts from the next frame on holds from `i` too. */
  lemma TallyStepAgreeing(audio: seq<real>, classify: seq<real> -> FrameVerdict,
                          other: seq<real> -> FrameVerdict, i: nat, d: Counts)
    requires i + FrameSamples() < |audio|
    requires other(Frame(audio, i)) == classify(Frame(audio, i))
    requires Add(Tally(audio, other, i + FrameSamples()), d) == Tally(audio, classify, i + FrameSamples())
    ensures Add(Tally(audio, other, i), d) == Tally(audio, classify, i)
  {
    var score := Score(classify(Frame(audio, i)));
    assert Tally(audio, other, i) == Add(score, Tally(audio, other, i + FrameSamples()));
    assert Tally(audio, classify, i) == Add(score, Tally(audio, classify, i + FrameSamples()));
  }

  /** The case of ErrorFrameUncounted where the raising frame is the first one. */
  lemma ErrorFrameFirst(audio: seq<real>, classify: seq<real> -> FrameVerdict,
                        other: seq<real> -> FrameVerdict, i: nat)
    requires i + FrameSamples() < |audio|
    requires other(Frame(audio, i)) == FrameError
    requires forall m: nat :: i < m && m + FrameSamples() <= |audio| ==>
      other(Frame(audio, m)) == classify(Frame(audio, m))
    ensures Add(Tally(audio, other, i), Score(classify(Frame(audio, i)))) == Tally(audio, classify, i)
  {
    var fs := FrameSamples();
    TallyAgrees(audio, other, classify, i + fs);
    var rest := Tally(audio, classify, i + fs);
    var score := Score(classify(Frame(audio, i)));
    assert Tally(audio, other, i) == Add(Counts(0, 0), rest);
    assert Tally(audio, classify, i) == Add(score, rest);
    assert Add(Add(Counts(0, 0), rest), score) == Add(score, rest);
  }

  /** Classifiers that agree on every frame from offset `i` on give the same counts. */
  lemma {:induction false} TallyAgrees(audio: seq<real>, classify: seq<real> -> FrameVerdict,
                                       other: seq<real> -> FrameVerdict, i: nat)
    requires forall m: nat :: i <= m && m + FrameSamples() <= |audio| ==>
      classify(Frame(audio, m)) == other(Frame(audio, m))
    ensures Tally(audio, classify, i) == Tally(audio, other, i)
    decreases |audio| - i
  {
    var fs := FrameSamples();
    if i + fs < |audio| {
      TallyAgrees(audio, classify, other, i + fs);
    }
  }

  /** The voiced frames are among the classified ones: `0 <= voiced <= total`. */
  lemma {:induction false} TallyBounds(audio: seq<real>, classify: seq<real> -> FrameVerdict, i: nat)
    ensures 0 <= Tally(audio, classify, i).voiced <= Tally(audio, classify, i).total
    decreases |audio| - i
  {
    var fs := FrameSamples();
    if i + fs < |audio| {
      TallyBounds(audio, classify, i + fs);
    }
  }

  /** A silent chunk whose frames are all classified as non-speech is neither voiced nor
      above the level floor, so it is skipped. */
  lemma SilentChunkSkipped(chunk: seq<real>, vad: Vad)
    requires |chunk| > 0 && forall k :: 0 <= k < |chunk| ==> chunk[k] == 0.0
    requires !vad.raises(chunk)
    requires forall j: nat :: j + FrameSamples() <= |chunk| ==> vad.classify(Frame(chunk, j)) == NonSpeech
    ensures !VoicedDecision(chunk, vad) && MaxAbs(chunk) == 0.0 && !Gate(chunk, vad)
  {
    NoSpeechNoVoiced(chunk, vad.classify, 0);
    VoicedRatio(chunk, vad);
  }

  // ---------------------------------------------------------------------------
  // One pass of the recording loop

  /** The buffer and the chunk handed on after one wait of the recording loop. */
  datatype Tick = Tick(buffer: seq<real>, chunk: Option<seq<real>>)

  /** After the wait: with a full chunk in the buffer, take it, gate it, and drop the
      first `chunk_size - overlap_size` samples (fewer if there are fewer); otherwise
      wait longer. */
  function AfterWait(buffer: seq<real>, vad: Vad): Tick
  {
    if |buffer| >= ChunkSamples() then
      var chunk := buffer[..ChunkSamples()];
      Tick(buffer[MinNat(Advance(), |buffer|)..], if Gate(chunk, vad) then Some(chunk) else None)
    else Tick(buffer, None)
  }

  /** A chunk is only taken from a buffer holding at least one chunk, and it is the first
      `chunk_size` samples; after a take, exactly `chunk_size - overlap_size` samples are
      gone from the front whether or not it was yielded, so the buffer then starts with
      the last `overlap_size` samples of the chunk; the buffer stays within its bound. */
  lemma AfterWaitShape(buffer: seq<real>, vad: Vad)
    requires |buffer| <= Capacity()
    ensures var t := AfterWait(buffer, vad);
      |t.buffer| <= Capacity()
      && (|buffer| < ChunkSamples() ==> t == Tick(buffer, None))
      && (t.chunk.Some? ==> |buffer| >= ChunkSamples() && t.chunk.value == buffer[..ChunkSamples()])
      && (|buffer| >= ChunkSamples() ==>
            |t.buffer| == |buffer| - Advance()
            && t.buffer == buffer[Advance()..]
            && t.buffer[..OverlapSamples()] == buffer[..ChunkSamples()][Advance()..]
            && (t.chunk.Some? <==> Gate(buffer[..ChunkSamples()], vad)))
  {
  }

  /** What a recording session has produced so far: the buffer and the yielded chunks. */
  datatype Session = Session(buffer: seq<real>, chunks: seq<seq<real>>)

  /** One wait of the recording loop: the samples delivered during it are added, one pass
      runs, and a yielded chunk joins the list. */
  function Step(s: Session, arrival: seq<real>, vad: Vad): Session
  {
    var t := AfterWait(KeepLast(s.buffer, arrival, Capacity()), vad);
    Session(t.buffer, s.chunks + (if t.chunk.Some? then [t.chunk.value] else []))
  }

  /** A session from the given buffer, one step per wait. */
  function SessionAfter(buffer: seq<real>, arrivals: seq<seq<real>>, vad: Vad): Session
    decreases |arrivals|
  {
    if arrivals == [] then Session(buffer, [])
    else Step(SessionAfter(buffer, arrivals[..|arrivals| - 1], vad), arrivals[|arrivals| - 1], vad)
  }

  /** Across a whole session the buffer stays within its bound and every yielded chunk
      has exactly `chunk_size` samples, and a session yields at most one chunk per wait. */
  lemma {:induction false} RecordShape(buffer: seq<real>, arrivals: seq<seq<real>>, vad: Vad)
    requires |buffer| <= Capacity()
    ensures var s := SessionAfter(buffer, arrivals, vad);
      |s.buffer| <= Capacity()
      && |s.chunks| <= |arrivals|
      && forall k :: 0 <= k < |s.chunks| ==> |s.chunks[k]| == ChunkSamples()
    decreases |arrivals|
  {
    if arrivals != [] {
      var prev := SessionAfter(buffer, arrivals[..|arrivals| - 1], vad);
      RecordShape(buffer, arrivals[..|arrivals| - 1], vad);
      var filled := KeepLast(prev.buffer, arrivals[|arrivals| - 1], Capacity());
      AfterWaitShape(filled, vad);
    }
  }

  /** One more wait is one more step. */
  lemma RecordStep(buffer: seq<real>, arrivals: seq<seq<real>>, vad: Vad, t: nat)
    requires t < |arrivals|
    ensures SessionAfter(buffer, arrivals[..t + 1], vad) == Step(SessionAfter(buffer, arrivals[..t], vad), arrivals[t], vad)
  {
    assert arrivals[..t + 1][..t] == arrivals[..t];
  }

  /** The chunks a session has yielded after each number of waits, from none to all. */
  function ChunksSoFar(buffer: seq<real>, arrivals: seq<seq<real>>, vad: Vad): (cs: seq<seq<seq<real>>>)
    ensures |cs| == |arrivals| + 1 && cs[0] == []
    ensures forall t :: 0 <= t <= |arrivals| ==> cs[t] == SessionAfter(buffer, arrivals[..t], vad).chunks
  {
    assert arrivals[..0] == [];
    seq(|arrivals| + 1, t requires 0 <= t <= |arrivals| => SessionAfter(buffer, arrivals[..t], vad).chunks)
  }

  /** Lists that each keep the one before them and add at most one element. */
  ghost predicate Grows<T>(cs: seq<seq<T>>)
  {
    forall k :: 0 < k < |cs| ==> |cs[k - 1]| <= |cs[k]| <= |cs[k - 1]| + 1 && cs[k][..|cs[k - 1]|] == cs[k - 1]
  }

  /** One wait keeps the chunks yielded before it and adds at most one. */
  lemma StepExtends(s: Session, arrival: seq<real>, vad: Vad)
    ensures |s.chunks| <= |Step(s, arrival, vad).chunks| <= |s.chunks| + 1
    ensures Step(s, arrival, vad).chunks[..|s.chunks|] == s.chunks
  {
  }

  /** A session's yielded chunks only grow, one wait at a time. */
  lemma ChunksSoFarGrow(buffer: seq<real>, arrivals: seq<seq<real>>, vad: Vad)
    ensures Grows(ChunksSoFar(buffer, arrivals, vad))
  {
    var cs := ChunksSoFar(buffer, arrivals, vad);
    forall k | 0 < k < |cs|
      ensures |cs[k - 1]| <= |cs[k]| <= |cs[k - 1]| + 1 && cs[k][..|cs[k - 1]|] == cs[k - 1]
    {
      RecordStep(buffer, arrivals, vad, k - 1);
      StepExtends(SessionAfter(buffer, arrivals[..k - 1], vad), arrivals[k - 1], vad);
    }
  }

  /** In growing lists, each list begins every later one. */
  lemma {:induction false} GrowsPrefix<T>(cs: seq<seq<T>>, i: nat, j: nat)
    requires Grows(cs) && i <= j < |cs|
    ensures |cs[i]| <= |cs[j]| && cs[j][..|cs[i]|] == cs[i]
    decreases j
  {
    if i < j {
      GrowsPrefix(cs, i, j - 1);
      assert cs[j][..|cs[i]|] == cs[j][..|cs[j - 1]|][..|cs[i]|];
    }
  }

  /** A session's yielded chunks only grow: those of the first `i` waits begin those of
      the first `j`. */
  lemma ChunksGrow(buffer: seq<real>, arrivals: seq<seq<real>>, vad: Vad, i: nat, j: nat)
    requires i <= j <= |arrivals|
    ensures var early := SessionAfter(buffer, arrivals[..i], vad).chunks;
      var later := SessionAfter(buffer, arrivals[..j], vad).chunks;
      |early| <= |later| && later[..|early|] == early
  {
    ChunksSoFarGrow(buffer, arrivals, vad);
    GrowsPrefix(ChunksSoFar(buffer, arrivals, vad), i, j);
  }

  /** Among the first `m` steps of growing lists, the one that takes them past `n`
      elements. */
  function FirstPast<T>(cs: seq<seq<T>>, n: nat, m: nat): (w: Option<nat>)
    requires m < |cs|
    ensures w.Some? ==> w.value < m
    decreases m
  {
    if m == 0 then None
    else if n < |cs[m - 1]| then FirstPast(cs, n, m - 1)
    else if n < |cs[m]| then Some(m - 1)
    else None
  }

  /** Growing lists pass `n` elements within `m` steps exactly when list `m` is longer
      than `n`, and the step FirstPast names goes from `n` elements to `n + 1`. */
  lemma {:induction false} FirstPastMeaning<T>(cs: seq<seq<T>>, n: nat, m: nat)
    requires Grows(cs) && m < |cs| && cs[0] == []
    ensures FirstPast(cs, n, m).Some? <==> n < |cs[m]|
    ensures FirstPast(cs, n, m).Some? ==>
      |cs[FirstPast(cs, n, m).value]| == n && |cs[FirstPast(cs, n, m).value + 1]| == n + 1
    decreases m
  {
    if m > 0 {
      assert |cs[m - 1]| <= |cs[m]| <= |cs[m - 1]| + 1;
      FirstPastMeaning(cs, n, m - 1);
    }
  }

  /** The step of growing lists that goes from `n` elements to `n + 1` is the one
      FirstPast names. */
  lemma {:induction false} FirstPastAt<T>(cs: seq<seq<T>>, n: nat, t: nat, m: nat)
    requires Grows(cs) && t < m < |cs|
    requires |cs[t]| == n && |cs[t + 1]| == n + 1
    ensures FirstPast(cs, n, m) == Some(t)
    decreases m
  {
    if t < m - 1 {
      GrowsPrefix(cs, t + 1, m - 1);
      FirstPastAt(cs, n, t, m - 1);
    }
  }

  /** The buffer of wait `w` once its samples have arrived and before its pass runs. */
  function Filled(buffer: seq<real>, arrivals: seq<seq<real>>, vad: Vad, w: nat): seq<real>
    requires w < |arrivals|
  {
    KeepLast(SessionAfter(buffer, arrivals[..w], vad).buffer, arrivals[w], Capacity())
  }

  /** The wait whose pass yields chunk `n` of the session, when the session yields that
      many chunks. */
  function YieldingWait(buffer: seq<real>, arrivals: seq<seq<real>>, vad: Vad, n: nat): (w: Option<nat>)
    ensures w.Some? ==> w.value < |arrivals|
  {
    FirstPast(ChunksSoFar(buffer, arrivals, vad), n, |arrivals|)
  }

  /** Wait `w` yields chunk `n` of the session: the waits before it yielded `n` chunks
      and its pass hands on chunk `n` from its filled buffer. */
  ghost predicate YieldsAt(buffer: seq<real>, arrivals: seq<seq<real>>, vad: Vad, n: nat, w: nat)
  {
    w < |arrivals| && n < |SessionAfter(buffer, arrivals, vad).chunks|
    && |SessionAfter(buffer, arrivals[..w], vad).chunks| == n
    && AfterWait(Filled(buffer, arrivals, vad, w), vad).chunk == Some(SessionAfter(buffer, arrivals, vad).chunks[n])
  }

  /** Chunk `n` is yielded exactly when the session yields more than `n` chunks, and then
      by the wait YieldingWait names. */
  lemma YieldingWaitMeaning(buffer: seq<real>, arrivals: seq<seq<real>>, vad: Vad, n: nat)
    ensures YieldingWait(buffer, arrivals, vad, n).Some? <==> n < |SessionAfter(buffer, arrivals, vad).chunks|
    ensures YieldingWait(buffer, arrivals, vad, n).Some? ==>
      YieldsAt(buffer, arrivals, vad, n, YieldingWait(buffer, arrivals, vad, n).value)
  {
    var cs := ChunksSoFar(buffer, arrivals, vad);
    assert arrivals[..|arrivals|] == arrivals;
    ChunksSoFarGrow(buffer, arrivals, vad);
    FirstPastMeaning(cs, n, |arrivals|);
    if n < |cs[|arrivals|]| {
      var w := FirstPast(cs, n, |arrivals|).value;
      GrowsPrefix(cs, w + 1, |arrivals|);
      YieldedChunk(buffer, arrivals, vad, w);
      assert cs[|arrivals|][n] == cs[w + 1][n];
    }
  }

  /** A wait whose pass yields a chunk adds it, from its filled buffer, after the chunks
      yielded before it. */
  lemma YieldedChunk(buffer: seq<real>, arrivals: seq<seq<real>>, vad: Vad, w: nat)
    requires w < |arrivals|
    ensures var before := SessionAfter(buffer, arrivals[..w], vad).chunks;
      var after := SessionAfter(buffer, arrivals[..w + 1], vad).chunks;
      |before| < |after| ==> AfterWait(Filled(buffer, arrivals, vad, w), vad).chunk == Some(after[|before|])
  {
    RecordStep(buffer, arrivals, vad, w);
  }

  /** The wait that takes a session from `n` yielded chunks to `n + 1` is the one that
      yields chunk `n`. */
  lemma YieldingWaitAt(buffer: seq<real>, arrivals: seq<seq<real>>, vad: Vad, n: nat, t: nat)
    requires t < |arrivals|
    requires |SessionAfter(buffer, arrivals[..t], vad).chunks| == n
    requires |SessionAfter(buffer, arrivals[..t + 1], vad).chunks| == n + 1
    ensures YieldingWait(buffer, arrivals, vad, n) == Some(t)
  {
    var cs := ChunksSoFar(buffer, arrivals, vad);
    ChunksSoFarGrow(buffer, arrivals, vad);
    FirstPastAt(cs, n, t, |arrivals|);
  }

  /** From an empty buffer, one wait delivering a full chunk that passes the gate yields
      it as chunk 0, from a filled buffer holding exactly those samples. */
  lemma FirstChunkHeld(arrival: seq<real>, vad: Vad)
    requires |arrival| == ChunkSamples() && Gate(arrival, vad)
    ensures YieldingWait([], [arrival], vad, 0) == Some(0)
    ensures Filled([], [arrival], vad, 0) == arrival
  {
    assert [arrival][..0] == [];
    assert [arrival][..1] == [arrival];
    assert KeepLast([], arrival, Capacity()) == arrival;
    assert arrival[..ChunkSamples()] == arrival;
    YieldingWaitAt([], [arrival], vad, 0, 0);
  }

  /** Only the pass's pop separates the filled buffer of a wait from the buffer after it. */
  lemma FilledThenPass(buffer: seq<real>, arrivals: seq<seq<real>>, vad: Vad, w: nat)
    requires w < |arrivals|
    ensures AfterWait(Filled(buffer, arrivals, vad, w), vad).buffer == SessionAfter(buffer, arrivals[..w + 1], vad).buffer
  {
    RecordStep(buffer, arrivals, vad, w);
  }

  // ---------------------------------------------------------------------------
  // The capture object

  /** `AudioCapture`: the bounded buffer and the recording flag. */
  class AudioCapture {
    var buffer: seq<real>
    var isRecording: bool

    ghost predicate Valid()
      reads this
    {
      |buffer| <= Capacity()
    }

    constructor ()
      ensures Valid() && buffer == [] && !isRecording
    {
      buffer := [];
      isRecording := false;
    }

    /** `_audio_callback`: extend the buffer with the delivered samples, one at a time,
        dropping the oldest once it is full. */
    method AudioCallback(samples: seq<real>)
      requires Valid()
      modifies this
      ensures Valid() && isRecording == old(isRecording)
      ensures buffer == KeepLast(old(buffer), samples, Capacity())
    {
      ghost var start := buffer;
      var i := 0;
      while i < |samples|
        invariant 0 <= i <= |samples|
        invariant buffer == KeepLast(start, samples[..i], Capacity())
        invariant isRecording == old(isRecording)
      {
        assert KeepLast(start, samples[..i + 1], Capacity()) == Push(buffer, samples[i], Capacity()) by {
          KeepLastStep(start, samples[..i], samples[i], Capacity());
          assert samples[..i + 1] == samples[..i] + [samples[i]];
        }
        Append(samples[i]);
        i := i + 1;
      }
      assert samples[..i] == samples;
    }

    /** The deque's `append`: a full buffer drops its oldest sample first. */
    method Append(x: real)
      modifies this
      ensures buffer == Push(old(buffer), x, Capacity()) && isRecording == old(isRecording)
    {
      if |buffer| >= Capacity() {
        buffer := buffer[|buffer| - Capacity() + 1..] + [x];
      } else {
        buffer := buffer + [x];
      }
    }

    /** `_is_voiced`: count voiced and classified frames at offsets
        `range(0, len(chunk) - frame, frame)`, skipping frames whose classification
        raised, and compare the ratio with 0.1. */
    method IsVoiced(chunk: seq<real>, vad: Vad) returns (voiced: bool)
      ensures voiced == VoicedDecision(chunk, vad)
    {
      if vad.raises(chunk) {
        return true;
      }
      var frameSize := FrameSamples();
      var voicedFrames: int := 0;
      var totalFrames: int := 0;
      ghost var whole := Tally(chunk, vad.classify, 0);
      var i: nat := 0;
      while i < |chunk| - frameSize
        invariant Add(Counts(voicedFrames, totalFrames), Tally(chunk, vad.classify, i)) == whole
        decreases |chunk| - i
      {
        var frame := chunk[i..i + frameSize];
        if |frame| == frameSize {
          match vad.classify(frame)
          case Speech =>
            voicedFrames := voicedFrames + 1;
            totalFrames := totalFrames + 1;
          case NonSpeech =>
            totalFrames := totalFrames + 1;
          case FrameError =>
        }
        i := i + frameSize;
      }
      if totalFrames > 0 {
        voiced := AboveTenth(voicedFrames, totalFrames);
        return;
      }
      return false;
    }

    /** `voiced_frames / total_frames > 0.1`, computed on the reals. */
    static method AboveTenth(v: int, t: int) returns (above: bool)
      requires t > 0
      ensures above <==> 10 * v > t
    {
      above := v as real / t as real > 0.1;
      RatioAboveTenth(v, t);
    }

    /** The body of the recording loop after its wait: take and gate a chunk when the
        buffer holds one, then pop `chunk_size - overlap_size` samples while any are
        left. */
    method Poll(vad: Vad) returns (yielded: Option<seq<real>>)
      requires Valid()
      modifies this
      ensures Valid() && isRecording == old(isRecording)
      ensures Tick(buffer, yielded) == AfterWait(old(buffer), vad)
    {
      AfterWaitShape(buffer, vad);
      yielded := Take(vad);
      Pop();
    }

    /** The pass up to its `yield`: the first `chunk_size` samples of a full buffer,
        handed on when voiced or above the level floor; the buffer is left as it is. */
    method Take(vad: Vad) returns (yielded: Option<seq<real>>)
      ensures yielded == AfterWait(buffer, vad).chunk
      ensures yielded.Some? ==> |buffer| >= ChunkSamples() && yielded.value == buffer[..ChunkSamples()]
    {
      yielded := None;
      if |buffer| >= ChunkSamples() {
        var chunk := buffer[..ChunkSamples()];
        var audioLevel := MaxAbs(chunk);
        var voiced := IsVoiced(chunk, vad);
        if voiced || audioLevel > 0.001 {
          yielded := Some(chunk);
        }
      }
    }

    /** The pass after its `yield`: a buffer that held a chunk pops `chunk_size -
        overlap_size` samples while any are left. */
    method Pop()
      requires Valid()
      modifies this
      ensures Valid() && isRecording == old(isRecording)
      ensures |old(buffer)| >= ChunkSamples() ==> buffer == old(buffer)[Advance()..]
      ensures |old(buffer)| < ChunkSamples() ==> buffer == old(buffer)
    {
      if |buffer| >= ChunkSamples() {
        var n := 0;
        while n < ChunkSamples() - OverlapSamples()
          invariant 0 <= n <= Advance()
          invariant buffer == old(buffer)[MinNat(n, |old(buffer)|)..]
          invariant isRecording == old(isRecording)
        {
          if buffer != [] {
            buffer := buffer[1..];
          }
          n := n + 1;
        }
      }
    }

    /** One wait of the recording loop: the samples that arrived during it reach the
        callback, one pass runs, and the chunk it yields, if any, joins the list. */
    method Wait(arrival: seq<real>, vad: Vad, chunks: seq<seq<real>>) returns (more: seq<seq<real>>)
      requires Valid()
      modifies this
      ensures Valid() && isRecording == old(isRecording)
      ensures Session(buffer, more) == Step(Session(old(buffer), chunks), arrival, vad)
    {
      AudioCallback(arrival);
      var y := Poll(vad);
      more := chunks;
      if y.Some? {
        more := more + [y.value];
      }
    }

    /** `start_recording`: set the flag, run one pass per wait (delivering the samples that
        arrived during it first) and collect the yielded chunks; the session ends with the
        last wait before the stop request, and the flag is reset on the way out. */
    method StartRecording(arrivals: seq<seq<real>>, vad: Vad) returns (chunks: seq<seq<real>>)
      requires Valid()
      modifies this
      ensures Valid() && !isRecording
      ensures Session(buffer, chunks) == SessionAfter(old(buffer), arrivals, vad)
    {
      isRecording := true;
      ghost var start := buffer;
      chunks := [];
      var t := 0;
      while t < |arrivals|
        invariant 0 <= t <= |arrivals|
        invariant Valid()
        invariant Session(buffer, chunks) == SessionAfter(start, arrivals[..t], vad)
      {
        ghost var before := Session(buffer, chunks);
        chunks := Wait(arrivals[t], vad, chunks);
        assert SessionAfter(start, arrivals[..t + 1], vad) == Step(before, arrivals[t], vad) by {
          RecordStep(start, arrivals, vad, t);
        }
        t := t + 1;
      }
      assert arrivals[..t] == arrivals;
      isRecording := false;
    }

    /** `stop_recording`. */
    method StopRecording()
      modifies this
      ensures !isRecording && buffer == old(buffer)
    {
      isRecording := false;
    }
  }
}
