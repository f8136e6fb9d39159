/**
  `generate_aligned_lyrics_timestamp`: turns the transcribed segments into a
  contiguous timeline of lyric entries, framed by the cleaned song title.

  The aligner constructs a `BasicLyricsCleaner` and calls its `clean` method;
  here that method is the argument `clean`, a function of the text and the
  flags. With the cleaner of the text_cleaner module it is
  `(s, f) => TextCleaner.Cleaned(s, f, nlp)` (see the Pipeline module).
*/
module Lyricist {
  import opened Wrappers
  import opened PyStrings
  import opened PyNumbers
  import opened TextCleaner
  import opened LyricData

  /** The flags the title is cleaned with: verbs converted, pronouns and spelling kept. */
  const TITLE_FLAGS := Flags(true, false, false)

  /** A cleaned line with fewer than three tokens gets the title appended. */
  function Padded(text: string, title: string): string {
    if |Split(text)| < 3 then text + " " + title + " " else text
  }

  /** The lyric of the entry for segment `seg`: its text cleaned with the default flags, then padded. */
  function MiddleLyric(seg: Segment, title: string, clean: (string, Flags) -> string): string {
    Padded(clean(seg.text, DEFAULT_FLAGS), title)
  }

  /** The times the aligner promises: entry 0 starts at 0, entry `k + 1` starts at
      the rounded start of segment `k`, entry `n` ends at the rounded end of the
      last segment, the last entry ends at the audio length, and each entry ends
      where the next one starts. */
  predicate TimesAligned(out: seq<LyricInterval>, ts: seq<Segment>, audioLength: real) {
    var n := |ts|;
    n > 0
    && |out| == n + 2
    && out[0].start == 0.0
    && out[n + 1].end == audioLength
    && Contiguous(out)
    && (forall i :: 1 <= i <= n ==> out[i].start == Rounded(ts[i - 1].start))
    && out[n].end == Rounded(ts[n - 1].end)
  }

  /** The lyrics the aligner promises: the title first and last, and in between
      the cleaned, padded text of each segment in order. */
  predicate LyricsAligned(out: seq<LyricInterval>, ts: seq<Segment>, title: string, clean: (string, Flags) -> string)
    requires |out| == |ts| + 2
  {
    var n := |ts|;
    out[0].lyrics == title
    && out[n + 1].lyrics == title
    && (forall i :: 1 <= i <= n ==> out[i].lyrics == MiddleLyric(ts[i - 1], title, clean))
  }

  /** No entry has a filename yet. */
  predicate NoFilenames(out: seq<LyricInterval>) {
    forall i :: 0 <= i < |out| ==> out[i].filename == None
  }

  predicate IsAlignment(out: seq<LyricInterval>, ts: seq<Segment>, audioLength: real, title: string, clean: (string, Flags) -> string) {
    TimesAligned(out, ts, audioLength) && LyricsAligned(out, ts, title, clean) && NoFilenames(out)
  }

  /** `generate_aligned_lyrics_timestamp(timestamps, audio_length, clean_title)`.
      An empty `timestamps` fails at `timestamps[-1]` with an `IndexError`. */
  method GenerateAlignedLyricsTimestamp(timestamps: seq<Segment>, audioLength: real, cleanTitle: string, clean: (string, Flags) -> string)
    returns (r: Result<seq<LyricInterval>>)
    ensures r.Failure? <==> timestamps == []
    ensures r.Failure? ==> r.error == IndexError
    ensures r.Success? ==> IsAlignment(r.value, timestamps, audioLength, clean(cleanTitle, TITLE_FLAGS), clean)
  {
    var n := |timestamps|;
    var allStarts := [0.0] + seq(n, k requires 0 <= k < n => Rounded(timestamps[k].start));

    var title := clean(cleanTitle, TITLE_FLAGS);
    var lyrics := [title];
    for k := 0 to n
      invariant |lyrics| == k + 1 && lyrics[0] == title
      invariant forall j :: 1 <= j <= k ==> lyrics[j] == MiddleLyric(timestamps[j - 1], title, clean)
    {
      var text := clean(timestamps[k].text, DEFAULT_FLAGS);
      if |Split(text)| < 3 {
        text := text + " " + title + " ";
      }
      assert text == MiddleLyric(timestamps[k], title, clean);
      lyrics := lyrics + [text];
    }

    var ends: seq<real> := [];
    for i := 0 to |allStarts| - 1
      invariant ends == allStarts[1..i + 1]
    {
      ends := ends + [allStarts[i + 1]];
    }

    if n == 0 {
      return Failure(IndexError);
    }
    ends := ends + [Rounded(timestamps[n - 1].end)];

    allStarts := allStarts + [ends[|ends| - 1]];
    lyrics := lyrics + [title];
    ends := ends + [audioLength];

    assert forall i :: 1 <= i <= n ==> allStarts[i] == Rounded(timestamps[i - 1].start);
    var out: seq<LyricInterval> := [];
    for i := 0 to |allStarts|
      invariant |out| == i
      invariant forall j :: 0 <= j < i ==> out[j] == LyricInterval(allStarts[j], ends[j], lyrics[j], None)
    {
      out := out + [LyricInterval(allStarts[i], ends[i], lyrics[i], None)];
    }
    Assembled(out, allStarts, ends, lyrics, timestamps, audioLength, title, clean);
    return Success(out);
  }

  /** The three parallel lists the aligner builds, zipped, keep its promises. */
  lemma Assembled(out: seq<LyricInterval>, starts: seq<real>, ends: seq<real>, lyrics: seq<string>,
                  ts: seq<Segment>, audioLength: real, title: string, clean: (string, Flags) -> string)
    requires |ts| > 0
    requires |out| == |starts| == |ends| == |lyrics| == |ts| + 2
    requires forall j :: 0 <= j < |out| ==> out[j] == LyricInterval(starts[j], ends[j], lyrics[j], None)
    requires starts[0] == 0.0 && starts[|ts| + 1] == ends[|ts|]
    requires forall i :: 1 <= i <= |ts| ==> starts[i] == Rounded(ts[i - 1].start)
    requires forall i :: 0 <= i < |ts| ==> ends[i] == starts[i + 1]
    requires ends[|ts|] == Rounded(ts[|ts| - 1].end) && ends[|ts| + 1] == audioLength
    requires lyrics[0] == title && lyrics[|ts| + 1] == title
    requires forall i :: 1 <= i <= |ts| ==> lyrics[i] == MiddleLyric(ts[i - 1], title, clean)
    ensures IsAlignment(out, ts, audioLength, title, clean)
  {
    AssembledTimes(out, starts, ends, lyrics, ts, audioLength);
    AssembledLyrics(out, starts, ends, lyrics, ts, title, clean);
  }

  lemma AssembledTimes(out: seq<LyricInterval>, starts: seq<real>, ends: seq<real>, lyrics: seq<string>,
                       ts: seq<Segment>, audioLength: real)
    requires |ts| > 0
    requires |out| == |starts| == |ends| == |lyrics| == |ts| + 2
    requires forall j :: 0 <= j < |out| ==> out[j] == LyricInterval(starts[j], ends[j], lyrics[j], None)
    requires starts[0] == 0.0 && starts[|ts| + 1] == ends[|ts|]
    requires forall i :: 1 <= i <= |ts| ==> starts[i] == Rounded(ts[i - 1].start)
    requires forall i :: 0 <= i < |ts| ==> ends[i] == starts[i + 1]
    requires ends[|ts|] == Rounded(ts[|ts| - 1].end) && ends[|ts| + 1] == audioLength
    ensures TimesAligned(out, ts, audioLength)
  {
    var n := |ts|;
    forall i, j | 0 <= i < |out| && 0 <= j < |out| && j == i + 1
      ensures out[i].end == out[j].start
    {
      if i < n {
        assert ends[i] == starts[i + 1];
      }
    }
  }

  lemma AssembledLyrics(out: seq<LyricInterval>, starts: seq<real>, ends: seq<real>, lyrics: seq<string>,
                        ts: seq<Segment>, title: string, clean: (string, Flags) -> string)
    requires |out| == |starts| == |ends| == |lyrics| == |ts| + 2
    requires forall j :: 0 <= j < |out| ==> out[j] == LyricInterval(starts[j], ends[j], lyrics[j], None)
    requires lyrics[0] == title && lyrics[|ts| + 1] == title
    requires forall i :: 1 <= i <= |ts| ==> lyrics[i] == MiddleLyric(ts[i - 1], title, clean)
    ensures LyricsAligned(out, ts, title, clean) && NoFilenames(out)
  {
  }

  /** The promises pin the result down: two timelines that keep them are equal. */
  lemma AlignmentUnique(a: seq<LyricInterval>, b: seq<LyricInterval>, ts: seq<Segment>, audioLength: real, title: string, clean: (string, Flags) -> string)
    requires IsAlignment(a, ts, audioLength, title, clean)
    requires IsAlignment(b, ts, audioLength, title, clean)
    ensures a == b
  {
    TimesUnique(a, b, ts, audioLength);
    LyricsUnique(a, b, ts, title, clean);
    forall i | 0 <= i < |a|
      ensures a[i] == b[i]
    {
      assert a[i].filename == None == b[i].filename;
    }
  }

  lemma TimesUnique(a: seq<LyricInterval>, b: seq<LyricInterval>, ts: seq<Segment>, audioLength: real)
    requires TimesAligned(a, ts, audioLength)
    requires TimesAligned(b, ts, audioLength)
    ensures forall i :: 0 <= i < |a| ==> a[i].start == b[i].start && a[i].end == b[i].end
  {
    var n := |ts|;
    forall i | 0 <= i < n + 2
      ensures a[i].start == b[i].start
    {
      if i == n + 1 {
        assert a[n].end == a[n + 1].start && b[n].end == b[n + 1].start;
      }
    }
    forall i | 0 <= i < n + 1
      ensures a[i].end == b[i].end
    {
      assert a[i].end == a[i + 1].start && b[i].end == b[i + 1].start;
    }
  }

  lemma LyricsUnique(a: seq<LyricInterval>, b: seq<LyricInterval>, ts: seq<Segment>, title: string, clean: (string, Flags) -> string)
    requires |a| == |b| == |ts| + 2
    requires LyricsAligned(a, ts, title, clean)
    requires LyricsAligned(b, ts, title, clean)
    ensures forall i :: 0 <= i < |a| ==> a[i].lyrics == b[i].lyrics
  {
  }

  /** A padded line splits into the cleaned line's tokens followed by the title's. */
  lemma PaddedTokens(text: string, title: string)
    ensures Split(Padded(text, title)) == if |Split(text)| < 3 then Split(text) + Split(title) else Split(text)
  {
    if |Split(text)| < 3 {
      assert text + " " + title + " " == text + " " + (title + " " + "");
      SplitAroundSpace(text, title + " " + "");
      SplitAroundSpace(title, "");
      assert Split("") == [];
    }
  }

  /** Every token is longer than one character and is not a stopword. */
  predicate ContentWords(s: string) {
    forall w :: w in Split(s) ==> w !in STOPWORDS && |w| > 1
  }

  /** A cleaner that leaves only content words, and a title made of them, give
      a timeline whose every lyric is made of content words, padded ones included. */
  lemma LyricsOfContentWords(out: seq<LyricInterval>, ts: seq<Segment>, audioLength: real, title: string,
                             clean: (string, Flags) -> string)
    requires IsAlignment(out, ts, audioLength, title, clean)
    requires ContentWords(title)
    requires forall s :: ContentWords(clean(s, DEFAULT_FLAGS))
    ensures forall i :: 0 <= i < |out| ==> ContentWords(out[i].lyrics)
  {
    forall i | 0 <= i < |out|
      ensures ContentWords(out[i].lyrics)
    {
      if 1 <= i <= |ts| {
        var text := clean(ts[i - 1].text, DEFAULT_FLAGS);
        assert out[i].lyrics == Padded(text, title);
        PaddedTokens(text, title);
      }
    }
  }

  /** Rounded segment starts that never go backwards, a last segment that does not
      end before it starts, non-negative first start and an audio length no
      shorter than the rounded last end give entries that never end before they start. */
  lemma AlignmentOrdered(out: seq<LyricInterval>, ts: seq<Segment>, audioLength: real)
    requires TimesAligned(out, ts, audioLength)
    requires 0.0 <= Rounded(ts[0].start)
    requires forall k :: 0 <= k < |ts| - 1 ==> Rounded(ts[k].start) <= Rounded(ts[k + 1].start)
    requires Rounded(ts[|ts| - 1].start) <= Rounded(ts[|ts| - 1].end) <= audioLength
    ensures forall i :: 0 <= i < |out| ==> out[i].start <= out[i].end
  {
    var n := |ts|;
    forall i | 0 <= i < n + 2
      ensures out[i].start <= out[i].end
    {
      if i == 0 {
        assert out[0].end == out[1].start;
      } else if i < n {
        assert out[i].end == out[i + 1].start;
        assert out[i].start == Rounded(ts[i - 1].start);
      } else if i == n {
        assert out[n].start == Rounded(ts[n - 1].start);
      } else {
        assert out[n].end == out[n + 1].start;
      }
    }
  }
}
