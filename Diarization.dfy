/** The speaker-diarization post-processing of src/diarization.py: the loaded guard and
    dispatch, the windowing and short-circuits of the fallback clustering path, the elbow
    choice of the cluster count, the merge of adjacent same-speaker turns, the overlap
    alignment of transcript segments to turns, and the per-speaker summary.

    The numerical collaborators (feature extraction, standardisation, k-means, the
    pretrained pipeline) are inputs: a predicate saying whether feature extraction
    succeeded on a window, the inertia k-means reports for k clusters, the labels it
    assigns with k clusters, and whether a library call raised. */
module Diarization {
  import opened Wrappers
  import opened Transcript
  import Config
  import Audio

  // ---------------------------------------------------------------------------
  // Data

  /** A diarization turn `{"start", "end", "duration", "speaker"}`, in seconds. */
  datatype Turn = Turn(start: real, end: real, duration: real, speaker: string)

  /** A diarization result `{"speakers", "segments", "num_speakers"}`; the result for an
      unloaded diarizer carries no `num_speakers` key. */
  datatype Diarization = Diarization(speakers: seq<string>, segments: seq<Turn>, numSpeakers: Option<nat>)

  /** The time span of one analysis window, in seconds. */
  datatype Span = Span(start: real, end: real)

  /** A k-means cluster label; `chr(65 + label)` names it with a capital letter. */
  type Label = l: nat | l < 26

  /** What the numerical libraries report during one fallback run:
      `inertia(k)` is `KMeans(n_clusters=k).inertia_`, `elbowFails` says that fitting
      one of those models raised, `labels(k)` is `fit_predict` with k clusters, and
      `fails` says that standardisation or the final clustering raised. */
  datatype Clustering = Clustering(inertia: nat -> real, elbowFails: bool,
                                   labels: nat -> seq<Label>, fails: bool)

  /** What the pretrained pipeline produced: its result, or an exception (after which
      the fallback runs). */
  datatype PyannoteOutcome =
    | PyannoteTurns(result: Diarization)
      /** `normalised` says that the exception came after the input was rebound to its
          peak-normalised copy (writing the temporary file, running the pipeline, reading
          its tracks), so that the fallback sees the normalised samples; an exception
          before that (creating the temporary file) leaves the input as it was. */
    | PyannoteRaised(normalised: bool)

  function MinInt(a: int, b: int): int { if a <= b then a else b }
  function MinReal(a: real, b: real): real { if a <= b then a else b }
  function MaxReal(a: real, b: real): real { if a >= b then a else b }

  /** `audio_data / np.max(np.abs(audio_data))` when the peak is positive; the input
      itself otherwise. */
  function Normalised(audio: seq<real>): seq<real>
  {
    if |audio| > 0 && Audio.MaxAbs(audio) > 0.0 then
      seq(|audio|, k requires 0 <= k < |audio| => audio[k] / Audio.MaxAbs(audio))
    else audio
  }

  /** The normalised input has the same length, every sample within [-1, 1], and, unless
      it is silent, a sample of magnitude exactly 1; silence is left as it is. */
  lemma NormalisedPeak(audio: seq<real>)
    ensures |Normalised(audio)| == |audio|
    ensures forall k :: 0 <= k < |audio| ==> Audio.Abs(Normalised(audio)[k]) <= 1.0
    ensures (forall k :: 0 <= k < |audio| ==> audio[k] == 0.0) ==> Normalised(audio) == audio
    ensures (exists k :: 0 <= k < |audio| && audio[k] != 0.0) ==>
      exists k :: 0 <= k < |audio| && Audio.Abs(Normalised(audio)[k]) == 1.0
  {
    if |audio| > 0 && Audio.MaxAbs(audio) > 0.0 {
      ScaledByPeak(audio);
    } else if |audio| > 0 {
      SilentPeak(audio);
    }
  }

  /** With a positive peak every scaled sample lies within [-1, 1] and the peak sample
      scales to magnitude 1. */
  lemma ScaledByPeak(audio: seq<real>)
    requires |audio| > 0 && Audio.MaxAbs(audio) > 0.0
    ensures |Normalised(audio)| == |audio|
    ensures forall k :: 0 <= k < |audio| ==> Audio.Abs(Normalised(audio)[k]) <= 1.0
    ensures exists k :: 0 <= k < |audio| && Audio.Abs(Normalised(audio)[k]) == 1.0
  {
    var m := Audio.MaxAbs(audio);
    var n := Normalised(audio);
    assert forall k :: 0 <= k < |audio| ==> n[k] == audio[k] / m;
    forall k | 0 <= k < |audio|
      ensures Audio.Abs(n[k]) <= 1.0
    {
      ScaledMagnitude(audio[k], m);
    }
    var j :| 0 <= j < |audio| && Audio.Abs(audio[j]) == m;
    ScaledMagnitude(audio[j], m);
    assert Audio.Abs(n[j]) == 1.0;
  }

  /** A peak of 0 means every sample is 0, and such an input is left as it is. */
  lemma SilentPeak(audio: seq<real>)
    requires |audio| > 0 && Audio.MaxAbs(audio) <= 0.0
    ensures forall k :: 0 <= k < |audio| ==> audio[k] == 0.0
    ensures Normalised(audio) == audio
  {
    var m := Audio.MaxAbs(audio);
    forall k | 0 <= k < |audio| ensures audio[k] == 0.0 {
      assert Audio.Abs(audio[k]) <= m;
    }
  }

  /** Dividing by a peak `m` of at least `|x|` gives a magnitude of `|x| / m`, at most 1. */
  lemma ScaledMagnitude(x: real, m: real)
    requires m > 0.0 && Audio.Abs(x) <= m
    ensures Audio.Abs(x / m) == Audio.Abs(x) / m
    ensures Audio.Abs(x) / m <= 1.0
    ensures Audio.Abs(x) == m ==> Audio.Abs(x / m) == 1.0
  {
    var q := x / m;
    var a := Audio.Abs(x) / m;
    Quotient(x, m, q);
    Quotient(Audio.Abs(x), m, a);
    assert a * m == Audio.Abs(x);
    if x >= 0.0 {
      assert Audio.Abs(x) == x;
      Audio.SignOfProduct(-q, m);
      assert (-q) * m == -x;
      assert q >= 0.0;
    } else {
      assert Audio.Abs(x) == -x;
      Audio.SignOfProduct(q, m);
      assert q < 0.0;
      assert (-q) * m == -x;
      Quotient(-x, m, -q);
    }
    Audio.SignOfProduct(a - 1.0, m);
    assert (a - 1.0) * m == a * m - m;
    if Audio.Abs(x) == m {
      Quotient(m, m, 1.0);
    }
  }

  /** `z` is the quotient `y / m` exactly when `z * m == y`. */
  lemma Quotient(y: real, m: real, z: real)
    requires m > 0.0
    ensures z == y / m <==> z * m == y
  {
    assert (y / m) * m == y;
    if z * m == y {
      assert (z - y / m) * m == 0.0;
    }
  }

  /** The result of `diarize_audio` on a diarizer that is not loaded. */
  const NotLoaded: Diarization := Diarization([], [], None)

  /** A sample count as seconds: `samples / sample_rate`. */
  function Seconds(samples: nat, sampleRate: nat): real
    requires sampleRate > 0
  {
    samples as real / sampleRate as real
  }

  /** The degenerate single-speaker result: one turn "Speaker_A" over the whole input. */
  function SingleSpeaker(samples: nat, sampleRate: nat): Diarization
    requires sampleRate > 0
  {
    var len := Seconds(samples, sampleRate);
    Diarization(["Speaker_A"], [Turn(0.0, len, len, "Speaker_A")], Some(1))
  }

  /** `f"Speaker_{chr(65 + label)}"`. */
  function SpeakerName(l: Label): string
  {
    "Speaker_" + [(65 + l) as char]
  }

  /** The speaker list of a clustered result: one name per cluster, in index order. */
  function SpeakerNames(k: nat): (names: seq<string>)
    requires k <= 26
    ensures |names| == k
  {
    seq(k, i requires 0 <= i < k => SpeakerName(i))
  }

  // ---------------------------------------------------------------------------
  // Analysis windows of the fallback path

  /** `int(sample_rate * 1.0)`: one second of samples. */
  function WindowLength(sampleRate: nat): nat { sampleRate }

  /** `int(segment_length * 0.5)`: half a window. */
  function WindowOverlap(sampleRate: nat): nat { WindowLength(sampleRate) / 2 }

  /** The distance between consecutive window starts. */
  function WindowStep(sampleRate: nat): (step: nat)
    requires sampleRate > 0
    ensures step > 0
  {
    WindowLength(sampleRate) - WindowOverlap(sampleRate)
  }

  function SumSquares(s: seq<real>): real
  {
    if s == [] then 0.0 else SumSquares(s[..|s| - 1]) + s[|s| - 1] * s[|s| - 1]
  }

  /** The energy floor: `sqrt(mean(w ** 2)) >= 0.001`, stated without the root as
      `sum(w ** 2) >= 0.000001 * len(w)` (the two agree on the reals). */
  predicate Energetic(w: seq<real>)
  {
    |w| > 0 && SumSquares(w) >= 0.000001 * |w| as real
  }

  /** The test a window passes to be analysed: enough energy, and its features could be
      extracted. */
  function Analysable(extracts: seq<real> -> bool): seq<real> -> bool
  {
    w => Energetic(w) && extracts(w)
  }

  /** The window at sample `i` passes the window test `keep`. */
  predicate KeepWindow(audio: seq<real>, sampleRate: nat, keep: seq<real> -> bool, i: nat)
    requires i + WindowLength(sampleRate) <= |audio|
  {
    keep(audio[i..i + WindowLength(sampleRate)])
  }

  /** The starts of the kept windows among `range(i, len(audio) - segment_length, step)`,
      in order. */
  function KeptStarts(audio: seq<real>, sampleRate: nat, keep: seq<real> -> bool, i: nat): (r: seq<nat>)
    requires sampleRate > 0
    ensures forall k :: 0 <= k < |r| ==> i <= r[k] && r[k] + WindowLength(sampleRate) < |audio|
    decreases |audio| - i
  {
    if i + WindowLength(sampleRate) < |audio| then
      (if KeepWindow(audio, sampleRate, keep, i) then [i] else [])
        + KeptStarts(audio, sampleRate, keep, i + WindowStep(sampleRate))
    else []
  }

  /** Every analysed start is a window that passes the test. */
  lemma {:induction false} KeptStartsKept(audio: seq<real>, sampleRate: nat, keep: seq<real> -> bool, i: nat)
    requires sampleRate > 0
    ensures forall k :: 0 <= k < |KeptStarts(audio, sampleRate, keep, i)| ==>
      KeepWindow(audio, sampleRate, keep, KeptStarts(audio, sampleRate, keep, i)[k])
    decreases |audio| - i
  {
    if i + WindowLength(sampleRate) < |audio| {
      var step := WindowStep(sampleRate);
      KeptStartsKept(audio, sampleRate, keep, i + step);
      var rest := KeptStarts(audio, sampleRate, keep, i + step);
      var head := if KeepWindow(audio, sampleRate, keep, i) then [i] else [];
      var r := KeptStarts(audio, sampleRate, keep, i);
      assert r == head + rest;
      forall k | 0 <= k < |r|
        ensures KeepWindow(audio, sampleRate, keep, r[k])
      {
        if k >= |head| {
          assert 0 <= k - |head| < |rest|;
          assert KeepWindow(audio, sampleRate, keep, rest[k - |head|]);
          assert r[k] == rest[k - |head|];
        } else {
          assert r[k] == i && KeepWindow(audio, sampleRate, keep, i);
        }
      }
    }
  }

  /** The analysed starts are strictly increasing. */
  lemma {:induction false} KeptStartsIncreasing(audio: seq<real>, sampleRate: nat, keep: seq<real> -> bool, i: nat)
    requires sampleRate > 0
    ensures forall k, l :: 0 <= k < l < |KeptStarts(audio, sampleRate, keep, i)| ==>
      KeptStarts(audio, sampleRate, keep, i)[k] < KeptStarts(audio, sampleRate, keep, i)[l]
    decreases |audio| - i
  {
    if i + WindowLength(sampleRate) < |audio| {
      var step := WindowStep(sampleRate);
      KeptStartsIncreasing(audio, sampleRate, keep, i + step);
      var rest := KeptStarts(audio, sampleRate, keep, i + step);
      var head := if KeepWindow(audio, sampleRate, keep, i) then [i] else [];
      var r := KeptStarts(audio, sampleRate, keep, i);
      assert r == head + rest;
      forall k, l | 0 <= k < l < |r|
        ensures r[k] < r[l]
      {
        if k >= |head| {
          assert r[k] == rest[k - |head|] && r[l] == rest[l - |head|];
        } else {
          assert r[k] == i && r[l] == rest[l - 1];
          assert i + step <= rest[l - 1];
        }
      }
    }
  }

  /** No window is skipped: a start `j`, a whole number `m` of steps from the first,
      whose window ends before the input's end and passes the test, is analysed. */
  lemma {:induction false} KeptStartsComplete(audio: seq<real>, sampleRate: nat, keep: seq<real> -> bool,
                                              i: nat, j: nat, m: nat)
    requires sampleRate > 0 && j == i + m * WindowStep(sampleRate)
    requires j + WindowLength(sampleRate) < |audio|
    requires KeepWindow(audio, sampleRate, keep, j)
    ensures j in KeptStarts(audio, sampleRate, keep, i)
    decreases m
  {
    var step := WindowStep(sampleRate);
    var rest := KeptStarts(audio, sampleRate, keep, i + step);
    if m == 0 {
      assert j == i;
      assert KeptStarts(audio, sampleRate, keep, i) == [i] + rest;
    } else {
      StepsAfterOne(m, step);
      assert j == (i + step) + (m - 1) * step;
      KeptStartsComplete(audio, sampleRate, keep, i + step, j, m - 1);
      var head := if KeepWindow(audio, sampleRate, keep, i) then [i] else [];
      assert KeptStarts(audio, sampleRate, keep, i) == head + rest;
    }
  }

  /** `m` steps are one step and then `m - 1` more. */
  lemma StepsAfterOne(m: nat, step: nat)
    requires m > 0
    ensures step + (m - 1) * step == m * step
  {
  }

  /** Every window start is a whole number of steps from the first. */
  lemma {:induction false} KeptStartsOnGrid(audio: seq<real>, sampleRate: nat, keep: seq<real> -> bool, i: nat, k: nat)
    requires sampleRate > 0 && k < |KeptStarts(audio, sampleRate, keep, i)|
    ensures exists m: nat :: KeptStarts(audio, sampleRate, keep, i)[k] == i + m * WindowStep(sampleRate)
    decreases |audio| - i
  {
    var step := WindowStep(sampleRate);
    var r := KeptStarts(audio, sampleRate, keep, i);
    var rest := KeptStarts(audio, sampleRate, keep, i + step);
    var head := if KeepWindow(audio, sampleRate, keep, i) then [i] else [];
    assert r == head + rest;
    if k < |head| {
      assert r[k] == i + 0 * step;
    } else {
      KeptStartsOnGrid(audio, sampleRate, keep, i + step, k - |head|);
      var m: nat :| rest[k - |head|] == i + step + m * step;
      assert r[k] == i + (m + 1) * step;
    }
  }

  /** The time span of the window starting at sample `i`. */
  function WindowSpan(i: nat, sampleRate: nat): Span
    requires sampleRate > 0
  {
    Span(Seconds(i, sampleRate), Seconds(i + WindowLength(sampleRate), sampleRate))
  }

  /** The spans of the windows starting at `starts`, in the same order. */
  function Spans(starts: seq<nat>, sampleRate: nat): (r: seq<Span>)
    requires sampleRate > 0
    ensures |r| == |starts|
    ensures forall k :: 0 <= k < |r| ==> r[k] == WindowSpan(starts[k], sampleRate)
  {
    if starts == [] then []
    else Spans(starts[..|starts| - 1], sampleRate) + [WindowSpan(starts[|starts| - 1], sampleRate)]
  }

  /** Division by a positive number distributes over a difference and keeps order. */
  lemma Quotients(x: real, y: real, d: real)
    requires d > 0.0
    ensures x / d - y / d == (x - y) / d
    ensures x < y ==> x / d < y / d
  {
    var qx := x / d;
    var qy := y / d;
    assert qx * d == x && qy * d == y;
    assert (qx - qy) * d == x - y;
  }

  /** Every analysed window (its end sample lies before the end of the input) lasts one
      second, starts at or after 0 and ends before `len(audio) / sample_rate`: a window
      ending exactly at the end of the input is never analysed. */
  lemma WindowInsideInput(i: nat, samples: nat, sampleRate: nat)
    requires sampleRate > 0 && i + WindowLength(sampleRate) < samples
    ensures var w := WindowSpan(i, sampleRate);
      0.0 <= w.start && w.end - w.start == 1.0 && w.end < Seconds(samples, sampleRate)
  {
    var d := sampleRate as real;
    Quotients((i + sampleRate) as real, i as real, d);
    Quotients((i + sampleRate) as real, samples as real, d);
    assert (i + sampleRate) as real - i as real == d;
    Quotients(0.0, i as real, d);
  }

  /** One step of the window walk: the window at `i` is kept or not, and the walk goes
      on one step later. */
  lemma KeptStartsStep(audio: seq<real>, sampleRate: nat, keep: seq<real> -> bool, done: seq<nat>, i: nat)
    requires sampleRate > 0 && i + WindowLength(sampleRate) < |audio|
    ensures var rest := KeptStarts(audio, sampleRate, keep, i + WindowStep(sampleRate));
      done + KeptStarts(audio, sampleRate, keep, i)
      == if KeepWindow(audio, sampleRate, keep, i) then (done + [i]) + rest else done + rest
  {
  }

  /** The window at `i` passes the analysis test exactly when it has enough energy and
      its features can be extracted. */
  lemma AnalysableWindow(audio: seq<real>, sampleRate: nat, extracts: seq<real> -> bool, i: nat)
    requires i + WindowLength(sampleRate) <= |audio|
    ensures var w := audio[i..i + WindowLength(sampleRate)];
      KeepWindow(audio, sampleRate, Analysable(extracts), i) <==> Energetic(w) && extracts(w)
  {
  }

  /** One more start adds its span at the end. */
  lemma SpansSnoc(starts: seq<nat>, i: nat, sampleRate: nat)
    requires sampleRate > 0
    ensures Spans(starts + [i], sampleRate) == Spans(starts, sampleRate) + [WindowSpan(i, sampleRate)]
  {
    assert (starts + [i])[..|starts|] == starts;
  }

  /** The window loop of `_fallback_diarization`: walk the window starts, skip quiet
      windows and windows whose features cannot be extracted, and record the span of
      every other one. */
  method AnalysisWindows(audio: seq<real>, sampleRate: nat, extracts: seq<real> -> bool)
    returns (times: seq<Span>)
    requires sampleRate > 0
    ensures times == Spans(KeptStarts(audio, sampleRate, Analysable(extracts), 0), sampleRate)
  {
    var segmentLength := WindowLength(sampleRate);
    var overlap := WindowOverlap(sampleRate);
    ghost var starts: seq<nat> := [];
    times := [];
    var i: nat := 0;
    while i < |audio| - segmentLength
      invariant starts + KeptStarts(audio, sampleRate, Analysable(extracts), i) == KeptStarts(audio, sampleRate, Analysable(extracts), 0)
      invariant times == Spans(starts, sampleRate)
      decreases |audio| - i
    {
      starts, times := AnalyseWindow(audio, sampleRate, extracts, starts, times, i);
      i := i + (segmentLength - overlap);
    }
  }

  /** One pass of the window loop: record the span of the window at `i` when it has
      enough energy and its features can be extracted. */
  method AnalyseWindow(audio: seq<real>, sampleRate: nat, extracts: seq<real> -> bool,
                       ghost starts: seq<nat>, times: seq<Span>, i: nat)
    returns (ghost starts': seq<nat>, times': seq<Span>)
    requires sampleRate > 0 && i + WindowLength(sampleRate) < |audio|
    requires starts + KeptStarts(audio, sampleRate, Analysable(extracts), i) == KeptStarts(audio, sampleRate, Analysable(extracts), 0)
    requires times == Spans(starts, sampleRate)
    ensures starts' + KeptStarts(audio, sampleRate, Analysable(extracts), i + WindowStep(sampleRate))
      == KeptStarts(audio, sampleRate, Analysable(extracts), 0)
    ensures times' == Spans(starts', sampleRate)
  {
    var segment := audio[i..i + WindowLength(sampleRate)];
    KeptStartsStep(audio, sampleRate, Analysable(extracts), starts, i);
    AnalysableWindow(audio, sampleRate, extracts, i);
    starts', times' := starts, times;
    if Energetic(segment) && extracts(segment) {
      SpansSnoc(starts, i, sampleRate);
      starts' := starts + [i];
      times' := times + [WindowSpan(i, sampleRate)];
    }
  }

  // ---------------------------------------------------------------------------
  // The elbow choice of the cluster count

  /** The cap on the cluster count: `min(max_clusters, len(features) // 3)`. */
  function Cap(rows: nat, maxClusters: int): int
  {
    MinInt(maxClusters, rows / 3)
  }

  /** The inertias for k = 1 .. cap, in order. */
  function Inertias(inertia: nat -> real, cap: nat): (xs: seq<real>)
    ensures |xs| == cap
    ensures forall k :: 0 <= k < cap ==> xs[k] == inertia(k + 1)
  {
    seq(cap, k requires 0 <= k < cap => inertia(k + 1))
  }

  /** `np.diff`: the differences of consecutive elements. */
  function Diff(xs: seq<real>): (d: seq<real>)
    requires |xs| >= 1
    ensures |d| == |xs| - 1
    ensures forall j :: 0 <= j < |d| ==> d[j] == xs[j + 1] - xs[j]
  {
    seq(|xs| - 1, j requires 0 <= j < |xs| - 1 => xs[j + 1] - xs[j])
  }

  /** `np.argmax`: the first index of a maximal element. */
  function ArgMax(xs: seq<real>): (r: nat)
    requires |xs| > 0
    ensures r < |xs|
    ensures forall k :: 0 <= k < |xs| ==> xs[k] <= xs[r]
    ensures forall k :: 0 <= k < r ==> xs[k] < xs[r]
  {
    if |xs| == 1 then 0
    else
      var j := ArgMax(xs[..|xs| - 1]);
      assert forall k :: 0 <= k < |xs| - 1 ==> xs[..|xs| - 1][k] == xs[k];
      if xs[|xs| - 1] > xs[j] then |xs| - 1 else j
  }

  /** `_determine_optimal_clusters` given what k-means reports: 1 for fewer than six rows
      or a cap below 2; otherwise the first arg-max of the second difference of the
      inertias plus 2, which lies in [2, cap - 1]; 2 when there are only two inertias or
      fitting raised. */
  function OptimalClusters(rows: nat, maxClusters: int, inertia: nat -> real, elbowFails: bool): (k: nat)
    ensures k >= 1
    ensures k == 1 <==> rows < 6 || Cap(rows, maxClusters) < 2
    ensures maxClusters >= 1 ==> k <= maxClusters
    ensures rows >= 6 && Cap(rows, maxClusters) >= 2 ==> 2 <= k <= Cap(rows, maxClusters)
    ensures rows >= 6 && (Cap(rows, maxClusters) == 2 || (Cap(rows, maxClusters) > 2 && elbowFails)) ==> k == 2
  {
    if rows < 6 then 1
    else
      var cap := MinInt(maxClusters, rows / 3);
      if cap < 2 then 1
      // `2 if len(features) >= 6 else 1` is always 2 here: fewer rows returned above.
      else if elbowFails then 2
      else
        var inertias := Inertias(inertia, cap);
        if |inertias| >= 3 then
          var deltaDeltas := Diff(Diff(inertias));
          ElbowInRange(deltaDeltas, cap);
          MinInt(ArgMax(deltaDeltas) + 2, cap)
        else 2
  }

  /** With three or more inertias the count is the first arg-max of their second
      difference plus 2 (ArgMax states what that index is), and it lies below the cap,
      so the `min` with the cap never lowers it. */
  lemma OptimalClustersElbow(rows: nat, maxClusters: int, inertia: nat -> real)
    requires rows >= 6 && Cap(rows, maxClusters) >= 3
    ensures var dd := Diff(Diff(Inertias(inertia, Cap(rows, maxClusters))));
      |dd| == Cap(rows, maxClusters) - 2
      && OptimalClusters(rows, maxClusters, inertia, false) == ArgMax(dd) + 2 <= Cap(rows, maxClusters) - 1
  {
    var cap := Cap(rows, maxClusters);
    var dd := Diff(Diff(Inertias(inertia, cap)));
    ElbowInRange(dd, cap);
  }

  /** With `cap - 2` second differences, their first arg-max plus 2 is below the cap. */
  lemma ElbowInRange(dd: seq<real>, cap: int)
    requires |dd| > 0 && |dd| == cap - 2
    ensures 2 <= ArgMax(dd) + 2 <= cap - 1
  {
  }

  // ---------------------------------------------------------------------------
  // Merging adjacent same-speaker turns

  /** The merge test: same speaker and less than half a second between the end of the
      current turn and the start of the next. */
  predicate Joins(cur: Turn, next: Turn)
  {
    cur.speaker == next.speaker && Audio.Abs(cur.end - next.start) < 0.5
  }

  /** The turn at `j` would join the one after it. */
  predicate JoinsNext(turns: seq<Turn>, j: int)
  {
    0 <= j < |turns| - 1 && Joins(turns[j], turns[j + 1])
  }

  /** Folding `next` into `cur`: keep the start, take the later end, recompute the
      duration. */
  function Fold(cur: Turn, next: Turn): (r: Turn)
    ensures r.start == cur.start && r.speaker == cur.speaker && r.end == next.end
    ensures r.duration == r.end - r.start
  {
    cur.(end := next.end, duration := next.end - cur.start)
  }

  function SpeakerSet(turns: seq<Turn>): set<string>
  {
    set t | t in turns :: t.speaker
  }

  /** The merge of `rest` into the running turn `cur`. */
  function MergeFrom(cur: Turn, rest: seq<Turn>): (r: seq<Turn>)
    ensures 1 <= |r| <= |rest| + 1
    ensures r[0].start == cur.start && r[0].speaker == cur.speaker
    ensures r[|r| - 1].end == if rest == [] then cur.end else rest[|rest| - 1].end
    ensures forall j :: !JoinsNext(r, j)
    decreases |rest|
  {
    if rest == [] then [cur]
    else if Joins(cur, rest[0]) then MergeFrom(Fold(cur, rest[0]), rest[1..])
    else
      var tail := MergeFrom(rest[0], rest[1..]);
      var r := [cur] + tail;
      assert forall j :: !JoinsNext(r, j) by {
        forall j | 0 <= j < |r| - 1 ensures !Joins(r[j], r[j + 1]) {
          if j > 0 {
            assert r[j] == tail[j - 1] && r[j + 1] == tail[j];
            assert !JoinsNext(tail, j - 1);
          }
        }
      }
      r
  }

  /** One step of the merge, from the emitted turns and the running turn before it to
      those after it: the running turn absorbs the next turn, or is emitted and the next
      turn runs. */
  lemma MergeFromStep(done: seq<Turn>, cur: Turn, turns: seq<Turn>, i: nat, done': seq<Turn>, cur': Turn)
    requires i < |turns|
    requires Joins(cur, turns[i]) ==> done' == done && cur' == Fold(cur, turns[i])
    requires !Joins(cur, turns[i]) ==> done' == done + [cur] && cur' == turns[i]
    ensures done' + MergeFrom(cur', turns[i + 1..]) == done + MergeFrom(cur, turns[i..])
  {
    assert turns[i..][0] == turns[i] && turns[i..][1..] == turns[i + 1..];
  }

  /** Merging neither loses nor invents a speaker. */
  lemma {:induction false} MergeFromSpeakers(cur: Turn, rest: seq<Turn>)
    ensures SpeakerSet(MergeFrom(cur, rest)) == {cur.speaker} + SpeakerSet(rest)
    decreases |rest|
  {
    if rest != [] {
      assert SpeakerSet(rest) == {rest[0].speaker} + SpeakerSet(rest[1..]) by {
        assert forall t :: t in rest <==> t == rest[0] || t in rest[1..];
      }
      if Joins(cur, rest[0]) {
        MergeFromSpeakers(Fold(cur, rest[0]), rest[1..]);
      } else {
        var tail := MergeFrom(rest[0], rest[1..]);
        MergeFromSpeakers(rest[0], rest[1..]);
        assert SpeakerSet([cur] + tail) == {cur.speaker} + SpeakerSet(tail) by {
          assert forall t :: t in [cur] + tail <==> t == cur || t in tail;
        }
      }
    }
  }

  /** `_merge_adjacent_segments` as a function: lists of at most one turn are returned
      as they are. */
  function Merged(turns: seq<Turn>): seq<Turn>
  {
    if |turns| <= 1 then turns else MergeFrom(turns[0], turns[1..])
  }

  /** The loop of `_merge_adjacent_segments`: a running turn that absorbs each next turn
      it joins, and is emitted when one does not join. */
  method MergeAdjacent(turns: seq<Turn>) returns (merged: seq<Turn>)
    ensures merged == Merged(turns)
  {
    if |turns| <= 1 {
      return turns;
    }
    merged := [];
    var current := turns[0];
    var i := 1;
    assert merged + MergeFrom(current, turns[i..]) == MergeFrom(turns[0], turns[1..]);
    while i < |turns|
      invariant 1 <= i <= |turns|
      invariant merged + MergeFrom(current, turns[i..]) == Merged(turns)
    {
      ghost var done, cur := merged, current;
      merged, current := AbsorbOrEmit(merged, current, turns[i]);
      MergeFromStep(done, cur, turns, i, merged, current);
      i := i + 1;
    }
    assert turns[i..] == [];
    merged := merged + [current];
  }

  /** The body of the merge loop: the running turn absorbs the next one when they join;
      otherwise it is emitted and the next one runs. */
  method AbsorbOrEmit(merged: seq<Turn>, current: Turn, next: Turn) returns (merged': seq<Turn>, current': Turn)
    ensures Joins(current, next) ==> merged' == merged && current' == Fold(current, next)
    ensures !Joins(current, next) ==> merged' == merged + [current] && current' == next
  {
    if current.speaker == next.speaker && Audio.Abs(current.end - next.start) < 0.5 {
      merged' := merged;
      current' := current.(end := next.end);
      current' := current'.(duration := current'.end - current'.start);
    } else {
      merged' := merged + [current];
      current' := next;
    }
  }

  /** The merged list: unchanged when it has at most one turn; otherwise non-empty, no
      longer than the input, spanning from the first start to the last end, with the
      same set of speakers, and with no two consecutive turns left that would join. */
  lemma MergedShape(turns: seq<Turn>)
    ensures |turns| <= 1 ==> Merged(turns) == turns
    ensures |turns| >= 1 ==>
      var m := Merged(turns);
      1 <= |m| <= |turns| && m[0].start == turns[0].start
      && m[|m| - 1].end == turns[|turns| - 1].end
      && SpeakerSet(m) == SpeakerSet(turns)
    ensures forall j :: !JoinsNext(Merged(turns), j)
  {
    if |turns| >= 2 {
      MergeFromSpeakers(turns[0], turns[1..]);
      assert SpeakerSet(turns) == {turns[0].speaker} + SpeakerSet(turns[1..]) by {
        assert forall t :: t in turns <==> t == turns[0] || t in turns[1..];
      }
    }
  }

  /** A list in which no two consecutive turns join merges to itself. */
  lemma {:induction false} MergeFromNoJoins(cur: Turn, rest: seq<Turn>)
    requires rest != [] ==> !Joins(cur, rest[0])
    requires forall j :: !JoinsNext(rest, j)
    ensures MergeFrom(cur, rest) == [cur] + rest
    decreases |rest|
  {
    if rest != [] {
      assert !JoinsNext(rest, 0);
      assert forall j :: !JoinsNext(rest[1..], j) by {
        forall j | 0 <= j < |rest| - 2 ensures !Joins(rest[1..][j], rest[1..][j + 1]) {
          assert !JoinsNext(rest, j + 1);
        }
      }
      MergeFromNoJoins(rest[0], rest[1..]);
      assert [rest[0]] + rest[1..] == rest;
    }
  }

  /** Merging is idempotent: a merged list merges to itself. */
  lemma MergeIdempotent(turns: seq<Turn>)
    ensures Merged(Merged(turns)) == Merged(turns)
  {
    var m := Merged(turns);
    MergedShape(turns);
    if |m| >= 2 {
      assert !JoinsNext(m, 0);
      assert forall j :: !JoinsNext(m[1..], j) by {
        forall j | 0 <= j < |m| - 2 ensures !Joins(m[1..][j], m[1..][j + 1]) {
          assert !JoinsNext(m, j + 1);
        }
      }
      MergeFromNoJoins(m[0], m[1..]);
      assert [m[0]] + m[1..] == m;
    }
  }

  /** The turn the fallback path makes of the window at sample `i`. */
  function WindowTurn(i: nat, sampleRate: nat, speaker: string): Turn
    requires sampleRate > 0
  {
    var w := WindowSpan(i, sampleRate);
    Turn(w.start, w.end, w.end - w.start, speaker)
  }

  /** At an even sample rate (the default 16 kHz among them), two same-speaker windows
      `m` steps apart join exactly when `m == 2`: consecutive windows are 0.5 s apart
      end-to-start, which the strict test does not merge, and only windows one full
      window apart (the middle one dropped) merge. */
  lemma WindowsJoinOnlyTwoStepsApart(i: nat, m: nat, sampleRate: nat, speaker: string)
    requires sampleRate > 0 && sampleRate % 2 == 0
    ensures var a := WindowTurn(i, sampleRate, speaker);
      var b := WindowTurn(i + m * WindowStep(sampleRate), sampleRate, speaker);
      Joins(a, b) <==> m == 2
  {
    var h := sampleRate / 2;
    assert WindowStep(sampleRate) == h;
    var d := sampleRate as real;
    var x := (i + sampleRate) as real;
    var y := (i + m * h) as real;
    assert x - y == (2.0 - m as real) * h as real;
    assert d == 2.0 * h as real;
    var a := WindowTurn(i, sampleRate, speaker);
    var b := WindowTurn(i + m * h, sampleRate, speaker);
    assert a.end == x / d && b.start == y / d;
    QuotientDifference(x, y, (2.0 - m as real), h as real);
  }

  /** With `x - y == c * h` and `h > 0`: `x / (2h) - y / (2h) == c / 2`. */
  lemma QuotientDifference(x: real, y: real, c: real, h: real)
    requires h > 0.0 && x - y == c * h
    ensures x / (2.0 * h) - y / (2.0 * h) == c / 2.0
  {
    var qx := x / (2.0 * h);
    var qy := y / (2.0 * h);
    assert qx * (2.0 * h) == x;
    assert qy * (2.0 * h) == y;
    assert (qx - qy) * (2.0 * h) == c * h;
    assert (qx - qy) * 2.0 == c;
  }

  /** At the default sample rate, consecutive windows never merge. */
  lemma ConsecutiveWindowsStaySeparate(i: nat, speaker: string)
    ensures !Joins(WindowTurn(i, Config.SampleRate, speaker),
                   WindowTurn(i + WindowStep(Config.SampleRate), Config.SampleRate, speaker))
  {
    WindowsJoinOnlyTwoStepsApart(i, 1, Config.SampleRate, speaker);
  }

  // ---------------------------------------------------------------------------
  // The fallback clustering path

  /** The labelled window turns: `zip(segment_times, speaker_labels)`, which stops at the
      shorter of the two. */
  function LabelledTurns(times: seq<Span>, labels: seq<Label>): (r: seq<Turn>)
    ensures |r| == MinInt(|times|, |labels|)
    ensures forall i :: 0 <= i < |r| ==> r[i] == LabelTurn(times[i], labels[i])
  {
    seq(MinInt(|times|, |labels|), i requires 0 <= i < MinInt(|times|, |labels|) => LabelTurn(times[i], labels[i]))
  }

  /** The turn of one labelled window. */
  function LabelTurn(w: Span, l: Label): Turn
  {
    Turn(w.start, w.end, w.end - w.start, SpeakerName(l))
  }

  /** The labelling loop of `_fallback_diarization`: one turn per window and label,
      walking both lists together. */
  method LabelWindows(times: seq<Span>, labels: seq<Label>) returns (segments: seq<Turn>)
    ensures segments == LabelledTurns(times, labels)
  {
    segments := [];
    var i := 0;
    while i < |times| && i < |labels|
      invariant 0 <= i <= MinInt(|times|, |labels|)
      invariant |segments| == i
      invariant forall p :: 0 <= p < i ==> segments[p] == LabelTurn(times[p], labels[p])
    {
      var w := times[i];
      segments := segments + [Turn(w.start, w.end, w.end - w.start, SpeakerName(labels[i]))];
      i := i + 1;
    }
  }

  /** What `_fallback_diarization` returns. */
  function FallbackResult(audio: seq<real>, sampleRate: nat, extracts: seq<real> -> bool, c: Clustering): Diarization
    requires sampleRate > 0
  {
    if |audio| < WindowLength(sampleRate) then SingleSpeaker(|audio|, sampleRate)
    else
      var times := Spans(KeptStarts(audio, sampleRate, Analysable(extracts), 0), sampleRate);
      if |times| < 3 || c.fails then SingleSpeaker(|audio|, sampleRate)
      else
        var k := OptimalClusters(|times|, MinInt(Config.MaxSpeakers, |times| / 2), c.inertia, c.elbowFails);
        Diarization(SpeakerNames(k), Merged(LabelledTurns(times, c.labels(k))), Some(k))
  }

  /** `_fallback_diarization`: the window loop, the short-circuits, the cluster count,
      the labelling loop and the merge; any library failure gives the single-speaker
      result. */
  method FallbackDiarization(audio: seq<real>, sampleRate: nat, extracts: seq<real> -> bool, c: Clustering)
    returns (d: Diarization)
    requires sampleRate > 0
    ensures d == FallbackResult(audio, sampleRate, extracts, c)
  {
    var segmentLength := WindowLength(sampleRate);
    if |audio| < segmentLength {
      return SingleSpeaker(|audio|, sampleRate);
    }
    var times := AnalysisWindows(audio, sampleRate, extracts);
    if |times| < 3 {
      return SingleSpeaker(|audio|, sampleRate);
    }
    if c.fails {
      return SingleSpeaker(|audio|, sampleRate);
    }
    var k := OptimalClusters(|times|, MinInt(Config.MaxSpeakers, |times| / 2), c.inertia, c.elbowFails);
    var labels := c.labels(k);
    var segments := LabelWindows(times, labels);
    segments := MergeAdjacent(segments);
    d := Diarization(SpeakerNames(k), segments, Some(k));
  }

  /** What `fit_predict` with `k` clusters returns on `n` feature rows: one label per
      row, each naming one of the `k` clusters. */
  predicate FitsClusters(labels: seq<Label>, n: nat, k: nat)
  {
    |labels| == n && forall j :: 0 <= j < |labels| ==> labels[j] < k
  }

  /** With labels as k-means returns them, every turn of a clustered result belongs to
      one of the speakers it lists, and there is at least one turn. */
  lemma FallbackClusteredSpeakers(audio: seq<real>, sampleRate: nat, extracts: seq<real> -> bool, c: Clustering)
    requires sampleRate > 0 && |audio| >= sampleRate && !c.fails
    requires |KeptStarts(audio, sampleRate, Analysable(extracts), 0)| >= 3
    requires var n := |KeptStarts(audio, sampleRate, Analysable(extracts), 0)|;
      FitsClusters(c.labels(OptimalClusters(n, MinInt(Config.MaxSpeakers, n / 2), c.inertia, c.elbowFails)), n,
                   OptimalClusters(n, MinInt(Config.MaxSpeakers, n / 2), c.inertia, c.elbowFails))
    ensures var d := FallbackResult(audio, sampleRate, extracts, c);
      |d.segments| >= 1 && forall t :: t in d.segments ==> t.speaker in d.speakers
  {
    var times := Spans(KeptStarts(audio, sampleRate, Analysable(extracts), 0), sampleRate);
    var k := OptimalClusters(|times|, MinInt(Config.MaxSpeakers, |times| / 2), c.inertia, c.elbowFails);
    MergedLabelsNamed(times, c.labels(k), k);
  }

  /** Merging labelled windows whose labels are all below `k` leaves at least one turn,
      each with one of the first `k` speaker names. */
  lemma MergedLabelsNamed(times: seq<Span>, labels: seq<Label>, k: nat)
    requires 1 <= k <= 26 && |times| >= 1 && FitsClusters(labels, |times|, k)
    ensures |Merged(LabelledTurns(times, labels))| >= 1
    ensures forall t :: t in Merged(LabelledTurns(times, labels)) ==> t.speaker in SpeakerNames(k)
  {
    var turns := LabelledTurns(times, labels);
    var names := SpeakerNames(k);
    MergedShape(turns);
    forall t | t in Merged(turns)
      ensures t.speaker in names
    {
      assert t.speaker in SpeakerSet(Merged(turns));
      var u :| u in turns && u.speaker == t.speaker;
      var j :| 0 <= j < |turns| && turns[j] == u;
      assert names[labels[j]] == SpeakerName(labels[j]) == u.speaker;
    }
  }

  /** Input shorter than one window, fewer than three analysable windows, or a library
      failure: one turn "Speaker_A" from 0 to `len(audio) / sample_rate`, one speaker. */
  lemma FallbackSingleSpeaker(audio: seq<real>, sampleRate: nat, extracts: seq<real> -> bool, c: Clustering)
    requires sampleRate > 0
    requires |audio| < sampleRate || |KeptStarts(audio, sampleRate, Analysable(extracts), 0)| < 3 || c.fails
    ensures var d := FallbackResult(audio, sampleRate, extracts, c);
      d.numSpeakers == Some(1) && d.speakers == ["Speaker_A"]
      && d.segments == [Turn(0.0, |audio| as real / sampleRate as real,
                              |audio| as real / sampleRate as real, "Speaker_A")]
  {
  }

  /** A clustered result names between one and five speakers, lists exactly that many
      speaker names, and its turns are the merge of the labelled windows. */
  lemma FallbackClustered(audio: seq<real>, sampleRate: nat, extracts: seq<real> -> bool, c: Clustering)
    requires sampleRate > 0 && |audio| >= sampleRate && !c.fails
    requires |KeptStarts(audio, sampleRate, Analysable(extracts), 0)| >= 3
    ensures var d := FallbackResult(audio, sampleRate, extracts, c);
      d.numSpeakers.Some? && 1 <= d.numSpeakers.value <= Config.MaxSpeakers
      && |d.speakers| == d.numSpeakers.value
      && |d.segments| <= |KeptStarts(audio, sampleRate, Analysable(extracts), 0)|
      && d.speakers == SpeakerNames(d.numSpeakers.value)
      && d.segments == Merged(LabelledTurns(Spans(KeptStarts(audio, sampleRate, Analysable(extracts), 0), sampleRate),
                                            c.labels(d.numSpeakers.value)))
  {
    var times := Spans(KeptStarts(audio, sampleRate, Analysable(extracts), 0), sampleRate);
    var k := OptimalClusters(|times|, MinInt(Config.MaxSpeakers, |times| / 2), c.inertia, c.elbowFails);
    MergedShape(LabelledTurns(times, c.labels(k)));
  }

  // ---------------------------------------------------------------------------
  // Aligning transcript segments with diarization turns

  /** `max(0, min(ends) - max(starts))`. */
  function Overlap(seg: Segment, turn: Turn): (r: real)
    ensures r >= 0.0
  {
    MaxReal(0.0, MinReal(seg.end, turn.end) - MaxReal(seg.start, turn.start))
  }

  /** The turn the scan over the first `n` turns settles on: the first one whose overlap
      is strictly larger than every earlier overlap and than 0. */
  function BestTurn(seg: Segment, turns: seq<Turn>, n: nat): (r: Option<nat>)
    requires n <= |turns|
    ensures r.None? <==> forall k :: 0 <= k < n ==> Overlap(seg, turns[k]) == 0.0
    ensures r.Some? ==>
      r.value < n && Overlap(seg, turns[r.value]) > 0.0
      && (forall k :: 0 <= k < n ==> Overlap(seg, turns[k]) <= Overlap(seg, turns[r.value]))
      && (forall k :: 0 <= k < r.value ==> Overlap(seg, turns[k]) < Overlap(seg, turns[r.value]))
  {
    if n == 0 then None
    else
      var b := BestTurn(seg, turns, n - 1);
      var best := if b.Some? then Overlap(seg, turns[b.value]) else 0.0;
      if Overlap(seg, turns[n - 1]) > best then Some(n - 1) else b
  }

  /** The speaker of the best turn, or "Unknown" when no turn overlaps. */
  function AssignedSpeaker(seg: Segment, turns: seq<Turn>): string
  {
    match BestTurn(seg, turns, |turns|)
    case None => Unknown
    case Some(j) => turns[j].speaker
  }

  /** `assign_speakers_to_transcription`: without diarization turns the segments are
      returned unchanged; otherwise each segment keeps everything but its speaker, which
      becomes that of the turn it overlaps most. */
  method AssignSpeakers(segments: seq<Segment>, diarization: Diarization) returns (updated: seq<Segment>)
    ensures diarization.segments == [] ==> updated == segments
    ensures diarization.segments != [] ==>
      |updated| == |segments|
      && forall i :: 0 <= i < |segments| ==>
           updated[i] == segments[i].(speaker := AssignedSpeaker(segments[i], diarization.segments))
  {
    var turns := diarization.segments;
    if turns == [] {
      return segments;
    }
    updated := [];
    var i := 0;
    while i < |segments|
      invariant 0 <= i <= |segments|
      invariant |updated| == i
      invariant forall p :: 0 <= p < i ==> updated[p] == segments[p].(speaker := AssignedSpeaker(segments[p], turns))
    {
      var bestSpeaker := BestSpeaker(segments[i], turns);
      updated := updated + [segments[i].(speaker := bestSpeaker)];
      i := i + 1;
    }
  }

  /** The inner scan of `assign_speakers_to_transcription`: a turn replaces the current
      best only when its overlap is strictly larger, starting from overlap 0 and "Unknown". */
  method BestSpeaker(seg: Segment, turns: seq<Turn>) returns (bestSpeaker: string)
    ensures bestSpeaker == AssignedSpeaker(seg, turns)
  {
    bestSpeaker := Unknown;
    var maxOverlap := 0.0;
    var j := 0;
    while j < |turns|
      invariant 0 <= j <= |turns|
      invariant var b := BestTurn(seg, turns, j);
        maxOverlap == (if b.Some? then Overlap(seg, turns[b.value]) else 0.0)
        && bestSpeaker == (if b.Some? then turns[b.value].speaker else Unknown)
    {
      var turn := turns[j];
      var overlapStart := MaxReal(seg.start, turn.start);
      var overlapEnd := MinReal(seg.end, turn.end);
      var overlapDuration := MaxReal(0.0, overlapEnd - overlapStart);
      if overlapDuration > maxOverlap {
        maxOverlap := overlapDuration;
        bestSpeaker := turn.speaker;
      }
      j := j + 1;
    }
  }

  /** The assigned speaker is "Unknown" when no turn overlaps the segment; otherwise it is
      the speaker of the first turn whose overlap is maximal. */
  lemma AssignedSpeakerMeaning(seg: Segment, turns: seq<Turn>)
    ensures (forall k :: 0 <= k < |turns| ==> Overlap(seg, turns[k]) == 0.0) ==> AssignedSpeaker(seg, turns) == Unknown
    ensures (exists k :: 0 <= k < |turns| && Overlap(seg, turns[k]) > 0.0) ==>
      exists j :: 0 <= j < |turns| && AssignedSpeaker(seg, turns) == turns[j].speaker
        && (forall k :: 0 <= k < |turns| ==> Overlap(seg, turns[k]) <= Overlap(seg, turns[j]))
        && (forall k :: 0 <= k < j ==> Overlap(seg, turns[k]) < Overlap(seg, turns[j]))
  {
    var b := BestTurn(seg, turns, |turns|);
    if b.Some? {
      var j := b.value;
      assert AssignedSpeaker(seg, turns) == turns[j].speaker;
    }
  }

  /** Turns in time order that do not overlap one another. */
  predicate Disjoint(turns: seq<Turn>)
  {
    (forall k :: 0 <= k < |turns| ==> turns[k].start <= turns[k].end)
    && forall a, b :: 0 <= a < b < |turns| ==> turns[a].end <= turns[b].start
  }

  /** With disjoint turns, a non-empty segment that lies inside one turn is given that
      turn's speaker. */
  lemma ContainedSegmentGetsItsTurn(seg: Segment, turns: seq<Turn>, j: nat)
    requires Disjoint(turns) && j < |turns|
    requires turns[j].start <= seg.start < seg.end <= turns[j].end
    ensures AssignedSpeaker(seg, turns) == turns[j].speaker
  {
    assert Overlap(seg, turns[j]) > 0.0;
  }

  /** A segment overlapping two turns unequally gets the speaker of the larger overlap. */
  lemma LargerOverlapWins(seg: Segment, a: Turn, b: Turn)
    requires Overlap(seg, a) != Overlap(seg, b)
    ensures AssignedSpeaker(seg, [a, b]) == if Overlap(seg, a) > Overlap(seg, b) then a.speaker else b.speaker
  {
    var turns := [a, b];
    assert turns[0] == a && turns[1] == b;
    var r := BestTurn(seg, turns, 2);
    if r.Some? {
      assert r.value == 0 || r.value == 1;
    }
  }

  // ---------------------------------------------------------------------------
  // The per-speaker summary

  /** A segment as the summary reads it: every key may be missing. */
  datatype SegmentRecord = SegmentRecord(start: Option<real>, end: Option<real>, text: Option<string>, speaker: Option<string>)

  datatype SpeakerStats = SpeakerStats(totalDuration: real, segmentCount: nat, words: seq<string>)

  datatype Summary = Summary(totalSpeakers: nat, speakerStats: map<string, SpeakerStats>)

  /** `segment.get("speaker", "Unknown")`. */
  function SpeakerOf(e: SegmentRecord): string { e.speaker.GetOr(Unknown) }

  /** `segment.get("end", 0) - segment.get("start", 0)`. */
  function DurationOf(e: SegmentRecord): real { e.end.GetOr(0.0) - e.start.GetOr(0.0) }

  function SpeakersIn(segments: seq<SegmentRecord>): set<string>
  {
    set e | e in segments :: SpeakerOf(e)
  }

  /** The number of segments of speaker `sp`. */
  function Count(segments: seq<SegmentRecord>, sp: string): nat
  {
    if segments == [] then 0
    else Count(segments[..|segments| - 1], sp) + (if SpeakerOf(segments[|segments| - 1]) == sp then 1 else 0)
  }

  /** The summed duration of the segments of speaker `sp`. */
  function TotalDuration(segments: seq<SegmentRecord>, sp: string): real
  {
    if segments == [] then 0.0
    else
      var last := segments[|segments| - 1];
      TotalDuration(segments[..|segments| - 1], sp) + (if SpeakerOf(last) == sp then DurationOf(last) else 0.0)
  }

  /** The texts of the segments of speaker `sp`, in order, "" for a missing text. */
  function Words(segments: seq<SegmentRecord>, sp: string): seq<string>
  {
    if segments == [] then []
    else
      var last := segments[|segments| - 1];
      Words(segments[..|segments| - 1], sp) + (if SpeakerOf(last) == sp then [last.text.GetOr("")] else [])
  }

  function StatsOf(segments: seq<SegmentRecord>, sp: string): SpeakerStats
  {
    SpeakerStats(TotalDuration(segments, sp), Count(segments, sp), Words(segments, sp))
  }

  /** A speaker that does not occur has no segments, no duration and no words. */
  lemma {:induction false} AbsentSpeakerStats(segments: seq<SegmentRecord>, sp: string)
    requires sp !in SpeakersIn(segments)
    ensures StatsOf(segments, sp) == SpeakerStats(0.0, 0, [])
  {
    if segments != [] {
      var init := segments[..|segments| - 1];
      assert SpeakersIn(init) <= SpeakersIn(segments) by {
        forall e | e in init ensures e in segments { }
      }
      assert segments[|segments| - 1] in segments;
      AbsentSpeakerStats(init, sp);
    }
  }

  /** `get_speaker_summary`: the loop that accumulates, per speaker, the total duration,
      the segment count and the texts. */
  method SpeakerSummary(segments: seq<SegmentRecord>) returns (summary: Summary)
    ensures segments == [] ==> summary == Summary(0, map[])
    ensures summary.speakerStats.Keys == SpeakersIn(segments)
    ensures summary.totalSpeakers == |SpeakersIn(segments)|
    ensures forall sp :: sp in summary.speakerStats ==> summary.speakerStats[sp] == StatsOf(segments, sp)
  {
    if segments == [] {
      return Summary(0, map[]);
    }
    var stats: map<string, SpeakerStats> := map[];
    var i := 0;
    assert segments[..0] == [];
    while i < |segments|
      invariant 0 <= i <= |segments|
      invariant stats.Keys == SpeakersIn(segments[..i])
      invariant forall sp :: sp in stats ==> stats[sp] == StatsOf(segments[..i], sp)
    {
      assert segments[..i + 1] == segments[..i] + [segments[i]];
      stats := AddToStats(stats, segments[..i], segments[i]);
      i := i + 1;
    }
    assert segments[..i] == segments;
    summary := Summary(|stats|, stats);
    assert |stats| == |stats.Keys|;
  }

  /** One step of the summary loop: the entry of the segment's speaker is created if
      missing, then its duration, count and texts are extended by the segment. */
  method AddToStats(stats: map<string, SpeakerStats>, ghost prefix: seq<SegmentRecord>, e: SegmentRecord)
    returns (next: map<string, SpeakerStats>)
    requires stats.Keys == SpeakersIn(prefix)
    requires forall sp :: sp in stats ==> stats[sp] == StatsOf(prefix, sp)
    ensures next.Keys == SpeakersIn(prefix + [e])
    ensures forall sp :: sp in next ==> next[sp] == StatsOf(prefix + [e], sp)
  {
    var speaker := SpeakerOf(e);
    var duration := DurationOf(e);
    next := stats;
    if speaker !in next {
      AbsentSpeakerStats(prefix, speaker);
      next := next[speaker := SpeakerStats(0.0, 0, [])];
    }
    var st := next[speaker];
    next := next[speaker := SpeakerStats(st.totalDuration + duration, st.segmentCount + 1, st.words + [e.text.GetOr("")])];
    forall sp | sp in next
      ensures next[sp] == StatsOf(prefix + [e], sp)
    {
      StatsOfSnoc(prefix, e, sp);
    }
    assert SpeakersIn(prefix + [e]) == SpeakersIn(prefix) + {speaker} by {
      forall x | x in prefix + [e] ensures x in prefix || x == e { }
    }
  }

  /** Appending a segment extends the statistics of its own speaker only. */
  lemma StatsOfSnoc(prefix: seq<SegmentRecord>, e: SegmentRecord, sp: string)
    ensures StatsOf(prefix + [e], sp) ==
      if SpeakerOf(e) == sp then
        var st := StatsOf(prefix, sp);
        SpeakerStats(st.totalDuration + DurationOf(e), st.segmentCount + 1, st.words + [e.text.GetOr("")])
      else StatsOf(prefix, sp)
  {
    var after := prefix + [e];
    assert after[..|after| - 1] == prefix && after[|after| - 1] == e;
  }

  /** The keys are distinct. */
  predicate Distinct(keys: seq<string>)
  {
    forall a, b :: 0 <= a < b < |keys| ==> keys[a] != keys[b]
  }

  /** The segment counts of the speakers `keys`, summed. */
  function SumCounts(keys: seq<string>, segments: seq<SegmentRecord>): nat
  {
    if keys == [] then 0 else Count(segments, keys[0]) + SumCounts(keys[1..], segments)
  }

  function Occurrences(keys: seq<string>, v: string): nat
  {
    if keys == [] then 0 else (if keys[0] == v then 1 else 0) + Occurrences(keys[1..], v)
  }

  lemma {:induction false} OccursOnce(keys: seq<string>, v: string)
    requires Distinct(keys) && v in keys
    ensures Occurrences(keys, v) == 1
  {
    if keys[0] == v {
      OccursNot(keys[1..], v);
    } else {
      OccursOnce(keys[1..], v);
    }
  }

  lemma {:induction false} OccursNot(keys: seq<string>, v: string)
    requires v !in keys
    ensures Occurrences(keys, v) == 0
  {
    if keys != [] {
      OccursNot(keys[1..], v);
    }
  }

  lemma {:induction false} SumCountsEmpty(keys: seq<string>)
    ensures SumCounts(keys, []) == 0
  {
    if keys != [] {
      SumCountsEmpty(keys[1..]);
    }
  }

  lemma {:induction false} SumCountsStep(keys: seq<string>, segments: seq<SegmentRecord>)
    requires segments != []
    ensures SumCounts(keys, segments)
      == SumCounts(keys, segments[..|segments| - 1]) + Occurrences(keys, SpeakerOf(segments[|segments| - 1]))
  {
    if keys != [] {
      SumCountsStep(keys[1..], segments);
    }
  }

  /** The per-speaker segment counts of the summary add up to the number of segments:
      summed over any duplicate-free list of the speakers, they give `len(segments)`. */
  lemma {:induction false} CountsSumToLength(keys: seq<string>, segments: seq<SegmentRecord>)
    requires Distinct(keys)
    requires forall e :: e in segments ==> SpeakerOf(e) in keys
    ensures SumCounts(keys, segments) == |segments|
  {
    if segments == [] {
      SumCountsEmpty(keys);
    } else {
      var init := segments[..|segments| - 1];
      var last := segments[|segments| - 1];
      assert last in segments;
      assert forall e :: e in init ==> e in segments;
      CountsSumToLength(keys, init);
      SumCountsStep(keys, segments);
      OccursOnce(keys, SpeakerOf(last));
    }
  }

  // ---------------------------------------------------------------------------
  // The diarizer object

  /** `SpeakerDiarization`: whether it is loaded and whether the pretrained pipeline is
      present. */
  class SpeakerDiarization {
    var isLoaded: bool
    var hasPipeline: bool

    constructor ()
      ensures !isLoaded && !hasPipeline
    {
      isLoaded := false;
      hasPipeline := false;
    }

    /** `load_model`: the pipeline is present when it could be loaded; the diarizer counts
        as loaded either way, since the fallback path needs no model. */
    method LoadModel(pipelineLoads: bool)
      modifies this
      ensures isLoaded && hasPipeline == pipelineLoads
    {
      hasPipeline := pipelineLoads;
      isLoaded := true;
    }

    /** `unload_model`. */
    method UnloadModel()
      modifies this
      ensures !isLoaded && !hasPipeline
    {
      hasPipeline := false;
      isLoaded := false;
    }

    /** `diarize_audio`: nothing when not loaded; the pipeline's result when it is present
        and succeeds; the fallback otherwise. */
    method DiarizeAudio(audio: seq<real>, sampleRate: nat, pyannote: PyannoteOutcome,
                        extracts: seq<real> -> bool, c: Clustering) returns (d: Diarization)
      requires sampleRate > 0
      ensures !isLoaded ==> d == NotLoaded
      ensures isLoaded && hasPipeline && pyannote.PyannoteTurns? ==> d == pyannote.result
      ensures isLoaded && !hasPipeline ==> d == FallbackResult(audio, sampleRate, extracts, c)
      ensures isLoaded && hasPipeline && pyannote.PyannoteRaised? ==>
        d == FallbackResult(if pyannote.normalised then Normalised(audio) else audio, sampleRate, extracts, c)
    {
      if !isLoaded {
        return NotLoaded;
      }
      if hasPipeline {
        match pyannote
        case PyannoteTurns(r) =>
          return r;
        case PyannoteRaised(normalised) =>
          var input := if normalised then Normalised(audio) else audio;
          d := FallbackDiarization(input, sampleRate, extracts, c);
          return;
      }
      d := FallbackDiarization(audio, sampleRate, extracts, c);
    }
  }
}
