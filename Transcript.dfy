/** Records shared by the transcription paths (src/transcribe.py, backend/main.py,
    src/diarization.py, src/main.py) and the hallucination-phrase filter that both
    transcription paths apply, with the same phrase list and the same rule. */
module Transcript {

  /** A segment as a transcription engine returns it: `{"start", "end", "text"}`. */
  datatype RawSegment = RawSegment(start: real, end: real, text: string)

  /** A transcript segment with its speaker label: `{"start", "end", "text", "speaker"}`. */
  datatype Segment = Segment(start: real, end: real, text: string, speaker: string)

  /** A transcription result: `{"text", "segments", "language"}`. */
  datatype Transcription = Transcription(text: string, segments: seq<Segment>, language: string)

  /** The default speaker of a segment nobody has attributed yet. */
  const Unknown: string := "Unknown"

  /** The phrases a speech recogniser tends to hallucinate on silence or noise. */
  const UnwantedPhrases: seq<string> := [
    "ご視聴ありがとうございました",
    "ご視聴ありがとうございます",
    "チャンネル登録お願いします",
    "お疲れ様でした",
    "ありがとうございました",
    "よろしくお願いします",
    "以上です",
    "Thank you for watching",
    "Please subscribe",
    "Thanks for watching"
  ]

  // ---------------------------------------------------------------------------
  // Python's str.strip() with no argument

  /** The characters for which Python's `str.isspace` holds. */
  predicate IsSpace(c: char)
  {
    c in {' ', '\t', '\n', '\r', '\U{0b}', '\U{0c}', '\U{1c}', '\U{1d}', '\U{1e}', '\U{1f}',
          '\U{85}', '\U{a0}', '\U{1680}', '\U{2000}', '\U{2001}', '\U{2002}', '\U{2003}',
          '\U{2004}', '\U{2005}', '\U{2006}', '\U{2007}', '\U{2008}', '\U{2009}', '\U{200a}',
          '\U{2028}', '\U{2029}', '\U{202f}', '\U{205f}', '\U{3000}'}
  }

  /** The string without its leading whitespace. */
  function TrimStart(s: string): (r: string)
    ensures |r| <= |s| && r == s[|s| - |r|..]
    ensures r != [] ==> !IsSpace(r[0])
    ensures forall k :: 0 <= k < |s| - |r| ==> IsSpace(s[k])
  {
    if s != [] && IsSpace(s[0]) then TrimStart(s[1..]) else s
  }

  /** The string without its trailing whitespace. */
  function TrimEnd(s: string): (r: string)
    ensures |r| <= |s| && r == s[..|r|]
    ensures r != [] ==> !IsSpace(r[|r| - 1])
    ensures forall k :: |r| <= k < |s| ==> IsSpace(s[k])
  {
    if s != [] && IsSpace(s[|s| - 1]) then TrimEnd(s[..|s| - 1]) else s
  }

  /** `s.strip()`: a piece of `s` that neither starts nor ends with whitespace
      (StripRemovesSurroundingSpace says which piece). */
  function Strip(s: string): (r: string)
    ensures |r| <= |s|
    ensures r != [] ==> !IsSpace(r[0]) && !IsSpace(r[|r| - 1])
  {
    TrimEnd(TrimStart(s))
  }

  /** `r` sits in `s` at index `a`, with only whitespace before and after it. */
  predicate SpaceAround(s: string, a: int, r: string)
  {
    0 <= a && a + |r| <= |s| && r == s[a..a + |r|]
    && (forall k :: 0 <= k < a ==> IsSpace(s[k]))
    && (forall k :: a + |r| <= k < |s| ==> IsSpace(s[k]))
  }

  /** The stripped text is `s` with its leading and trailing whitespace removed and
      nothing else: it sits in `s` with only whitespace on either side. */
  lemma StripRemovesSurroundingSpace(s: string)
    ensures exists a :: SpaceAround(s, a, Strip(s))
  {
    var t := TrimStart(s);
    var r := TrimEnd(t);
    var a := |s| - |t|;
    assert t == s[a..];
    assert r == t[..|r|];
    assert r == s[a..a + |r|] by {
      assert s[a..][..|r|] == s[a..a + |r|];
    }
    forall k | a + |r| <= k < |s|
      ensures IsSpace(s[k])
    {
      assert s[k] == t[k - a];
    }
    assert SpaceAround(s, a, r);
    assert r == Strip(s);
  }

  /** The stripped text is empty exactly when the text is all whitespace. */
  lemma StripEmptyIffAllSpace(s: string)
    ensures Strip(s) == [] <==> forall k :: 0 <= k < |s| ==> IsSpace(s[k])
  {
    var t := TrimStart(s);
    if Strip(s) != [] {
      assert !IsSpace(s[|s| - |t|]);
    }
  }

  /** Stripping twice is stripping once. */
  lemma StripIdempotent(s: string)
    ensures Strip(Strip(s)) == Strip(s)
  {
    var r := Strip(s);
    assert TrimStart(r) == r;
    assert TrimEnd(r) == r;
  }

  // ---------------------------------------------------------------------------
  // Python's `p in text` on strings

  /** `p` occurs in `text` starting at index `i`. */
  predicate OccursAt(text: string, p: string, i: int)
  {
    0 <= i <= |text| - |p| && text[i..i + |p|] == p
  }

  /** `p in text`: `p` occurs in `text` at some position. */
  function Contains(text: string, p: string): (r: bool)
    ensures r <==> exists i :: OccursAt(text, p, i)
    decreases |text|
  {
    if |p| > |text| then false
    else if text[..|p|] == p then
      assert OccursAt(text, p, 0);
      true
    else
      var r := Contains(text[1..], p);
      assert r ==> exists i :: OccursAt(text, p, i) by {
        if r {
          var i :| OccursAt(text[1..], p, i);
          assert text[1..][i..i + |p|] == text[i + 1..i + 1 + |p|];
          assert OccursAt(text, p, i + 1);
        }
      }
      assert (exists i :: OccursAt(text, p, i)) ==> r by {
        if exists i :: OccursAt(text, p, i) {
          var i :| OccursAt(text, p, i);
          assert i != 0;
          assert text[1..][i - 1..i - 1 + |p|] == text[i..i + |p|];
          assert OccursAt(text[1..], p, i - 1);
        }
      }
      r
  }

  // ---------------------------------------------------------------------------
  // The hallucination filter

  /** The rule for one phrase: the text contains it and is at most five characters
      longer than it. */
  predicate MatchesPhrase(text: string, phrase: string)
  {
    |text| <= |phrase| + 5 && Contains(text, phrase)
  }

  /** Some phrase of the list matches the text. */
  predicate MatchesAny(text: string, phrases: seq<string>)
  {
    exists k :: 0 <= k < |phrases| && MatchesPhrase(text, phrases[k])
  }

  /** The text is one of the hallucinations the transcription paths suppress. */
  predicate IsHallucination(text: string)
  {
    MatchesAny(text, UnwantedPhrases)
  }

  /** The filtered text against a phrase list: the stripped text, or "" when some phrase
      matches it. */
  function FilteredBy(raw: string, phrases: seq<string>): string
  {
    var t := Strip(raw);
    if MatchesAny(t, phrases) then "" else t
  }

  /** The filtered text against the unwanted phrases. */
  function Filtered(raw: string): string
  {
    FilteredBy(raw, UnwantedPhrases)
  }

  /** The loop over the phrase list: strip, then blank the text at the first phrase that
      matches and stop looking. Both transcription paths call it with UnwantedPhrases. */
  method FilterText(raw: string, phrases: seq<string>) returns (filtered: string)
    ensures filtered == FilteredBy(raw, phrases)
  {
    filtered := Strip(raw);
    var i := 0;
    while i < |phrases|
      invariant 0 <= i <= |phrases|
      invariant filtered == Strip(raw)
      invariant forall k :: 0 <= k < i ==> !MatchesPhrase(filtered, phrases[k])
    {
      if MatchesPhrase(filtered, phrases[i]) {
        filtered := "";
        break;
      }
      i := i + 1;
    }
  }

  /** Every unwanted phrase is non-empty and neither starts nor ends with whitespace. */
  lemma PhrasesAreTrimmed()
    ensures forall k :: 0 <= k < |UnwantedPhrases| ==>
      |UnwantedPhrases[k]| > 0 && !IsSpace(UnwantedPhrases[k][0])
      && !IsSpace(UnwantedPhrases[k][|UnwantedPhrases[k]| - 1])
  {
  }

  /** No list of non-empty phrases matches the empty text. */
  lemma EmptyMatchesNothing(phrases: seq<string>)
    requires forall k :: 0 <= k < |phrases| ==> phrases[k] != ""
    ensures !MatchesAny("", phrases)
  {
    forall k | 0 <= k < |phrases| ensures !MatchesPhrase("", phrases[k]) {
      assert !OccursAt("", phrases[k], 0);
    }
  }

  /** The filtered text is empty exactly when the stripped text is empty or a
      hallucination, and otherwise it is the stripped text. */
  lemma FilteredCases(raw: string)
    ensures Filtered(raw) == "" <==> Strip(raw) == "" || IsHallucination(Strip(raw))
    ensures Filtered(raw) != "" ==> Filtered(raw) == Strip(raw)
  {
  }

  /** Filtering already-filtered text changes nothing. */
  lemma FilterIdempotent(raw: string)
    ensures Filtered(Filtered(raw)) == Filtered(raw)
  {
    var t := Strip(raw);
    if IsHallucination(t) {
      assert Filtered(raw) == "";
      assert Strip("") == "";
      PhrasesAreTrimmed();
      EmptyMatchesNothing(UnwantedPhrases);
    } else {
      assert Filtered(raw) == t;
      StripIdempotent(raw);
    }
  }

  /** A bare unwanted phrase, with at most five characters appended to it, is blanked. */
  lemma PhraseWithSuffixBlanked(k: nat, suffix: string)
    requires k < |UnwantedPhrases| && |suffix| <= 5
    ensures Filtered(UnwantedPhrases[k] + suffix) == ""
  {
    var p := UnwantedPhrases[k];
    var t := p + suffix;
    PhrasesAreTrimmed();
    assert TrimStart(t) == t;
    TrimEndKeepsWord(p, suffix);
    var r := TrimEnd(t);
    assert r[0..|p|] == p;
    assert OccursAt(r, p, 0);
    assert MatchesPhrase(r, UnwantedPhrases[k]);
  }

  /** Trailing whitespace removal never reaches into a word that ends in a non-blank
      character: it only shortens what follows the word. */
  lemma TrimEndKeepsWord(p: string, s: string)
    requires p != [] && !IsSpace(p[|p| - 1])
    ensures |p| <= |TrimEnd(p + s)| <= |p| + |s|
    ensures TrimEnd(p + s)[..|p|] == p
  {
    var t := p + s;
    assert t[|p| - 1] == p[|p| - 1];
    assert t[..|p|] == p;
  }

  /** A text more than five characters longer than the longest phrase is never blanked,
      whatever phrase it contains. */
  lemma LongTextKept(raw: string)
    requires |Strip(raw)| > 27
    ensures Filtered(raw) == Strip(raw)
  {
    PhrasesAtMost22();
    forall k | 0 <= k < |UnwantedPhrases| ensures !MatchesPhrase(Strip(raw), UnwantedPhrases[k]) {
      assert |UnwantedPhrases[k]| <= 22;
    }
  }

  /** No unwanted phrase is longer than 22 characters ("Thank you for watching"). */
  lemma PhrasesAtMost22()
    ensures forall k :: 0 <= k < |UnwantedPhrases| ==> |UnwantedPhrases[k]| <= 22
  {
  }
}
