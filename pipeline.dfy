/**
  The path a song takes through `app.py`: the transcribed segments are
  aligned with the cleaned title, every entry is given an image file, and the
  video's frame list is built from the timeline. The lemmas here relate the
  parts: the lyrics are made of content words only, every image prompt is the
  template filled with the entry's lyric, and the frame list covers the audio
  one frame per tenth of a second.
*/
module Pipeline {
  import opened Wrappers
  import opened PyStrings
  import opened PyNumbers
  import opened TextCleaner
  import opened LyricData
  import opened Lyricist
  import opened Dalle
  import opened Generator
  import opened Movie

  /** The `clean` method of a `BasicLyricsCleaner` whose services are `nlp`. */
  function BasicCleaner(nlp: Nlp): (string, Flags) -> string {
    (s: string, f: Flags) => Cleaned(s, f, nlp)
  }

  /** The basic cleaner leaves only content words, whatever the flags. */
  lemma BasicCleanerContentWords(nlp: Nlp)
    ensures forall s, f :: ContentWords(BasicCleaner(nlp)(s, f))
  {
    forall s, f
      ensures ContentWords(BasicCleaner(nlp)(s, f))
    {
      CleanedShape(s, f, nlp);
    }
  }

  /** With the basic cleaner every lyric of the timeline, title entries
      included, is made of tokens longer than one character that are not
      stopwords. */
  lemma LyricsAreContentWords(out: seq<LyricInterval>, ts: seq<Segment>, audioLength: real, cleanTitle: string, nlp: Nlp)
    requires IsAlignment(out, ts, audioLength, BasicCleaner(nlp)(cleanTitle, TITLE_FLAGS), BasicCleaner(nlp))
    ensures forall i :: 0 <= i < |out| ==> ContentWords(out[i].lyrics)
  {
    BasicCleanerContentWords(nlp);
    LyricsOfContentWords(out, ts, audioLength, BasicCleaner(nlp)(cleanTitle, TITLE_FLAGS), BasicCleaner(nlp));
  }

  /** Every request the image step makes for the timeline asks for the
      template filled with the style phrase of the lower-cased art style and
      the entry's lyric; a style written in capitals still finds its phrase. */
  lemma RequestPrompts(entries: seq<LyricInterval>, outDir: string, artstyle: string)
    ensures forall i :: 0 <= i < |entries| ==>
      ImagePrompt(Requests(entries, outDir, Lower(artstyle))[i].lyric, Requests(entries, outDir, Lower(artstyle))[i].style)
      == Success(TEMPLATE_HEAD + ResolveStyle(Lower(artstyle)) + TEMPLATE_MIDDLE + entries[i].lyrics + TEMPLATE_TAIL)
    ensures ResolveStyle(Lower(artstyle)) in STYLE_MAPPING.Values
  {
    ResolveStyleInTable(Lower(artstyle));
    var rs := Requests(entries, outDir, Lower(artstyle));
    forall i | 0 <= i < |entries|
      ensures ImagePrompt(rs[i].lyric, rs[i].style)
        == Success(TEMPLATE_HEAD + ResolveStyle(Lower(artstyle)) + TEMPLATE_MIDDLE + entries[i].lyrics + TEMPLATE_TAIL)
    {
      ImagePromptShape(rs[i].lyric, rs[i].style);
    }
  }

  /** With the default art style of `generate_from_lyrics` the prompts use the
      `impressionist` phrase of the table. */
  lemma DefaultArtstyleResolves()
    ensures ResolveStyle(Lower(DEFAULT_ARTSTYLE)) == STYLE_MAPPING["impressionist"]
  {
    KeysAreLowerCase(DEFAULT_ARTSTYLE);
  }

  /** Once the images are assigned, the timeline from the aligner has a file
      for every entry, is still contiguous, and, when its segments are in
      order, asks at 10 frames a second for one frame per tenth of a second
      of audio. */
  lemma FramesCoverAudio(out: seq<LyricInterval>, ts: seq<Segment>, audioLength: real, title: string,
                         clean: (string, Flags) -> string, outDir: string)
    requires IsAlignment(out, ts, audioLength, title, clean)
    requires 0.0 <= Rounded(ts[0].start)
    requires forall k :: 0 <= k < |ts| - 1 ==> Rounded(ts[k].start) <= Rounded(ts[k + 1].start)
    requires Rounded(ts[|ts| - 1].start) <= Rounded(ts[|ts| - 1].end) <= audioLength
    ensures AllNamed(WithImagePaths(out, outDir))
    ensures TotalFrames(WithImagePaths(out, outDir), DEFAULT_FPS) == Round1(audioLength)
  {
    var named := WithImagePaths(out, outDir);
    WithImagePathsKeepsEntries(out, outDir);
    assert Contiguous(named) by {
      forall i, j | 0 <= i < |named| && 0 <= j < |named| && j == i + 1
        ensures named[i].end == named[j].start
      {
        assert out[i].end == out[j].start;
      }
    }
    AlignmentOrdered(out, ts, audioLength);
    forall i | 0 <= i < |named|
      ensures Round1(named[i].start) <= Round1(named[i].end)
    {
      Round1Monotone(out[i].start, out[i].end);
    }
    TimelineFrames(named);
    RoundWholeSeconds(0);
  }

  /** Segments to frame list, as `app.py` runs the steps: align, assign
      images, build the schedule; `app.py` cleans with `BasicCleaner(nlp)`.
      The frame list has a frame for every tenth
      of a second of a whole-second song when the segments are in order, so
      the slice to `duration * fps` that is thrown away would not have cut it. */
  method ArtVideoFrames(timestamps: seq<Segment>, duration: nat, cleanTitle: string, clean: (string, Flags) -> string,
                        outDir: string, artstyle: string)
    returns (r: Result<seq<string>>, requests: seq<ImageRequest>)
    ensures r.Failure? <==> timestamps == []
    ensures r.Failure? ==> r.error == IndexError
    ensures r.Success? ==> |requests| == |timestamps| + 2 && forall i :: 0 <= i < |requests| ==> requests[i].style == Lower(artstyle)
    ensures r.Success? && 0.0 <= Rounded(timestamps[0].start)
      && (forall k :: 0 <= k < |timestamps| - 1 ==> Rounded(timestamps[k].start) <= Rounded(timestamps[k + 1].start))
      && Rounded(timestamps[|timestamps| - 1].start) <= Rounded(timestamps[|timestamps| - 1].end) <= duration as real
      ==> |r.value| == duration * DEFAULT_FPS
  {
    var aligned := GenerateAlignedLyricsTimestamp(timestamps, duration as real, cleanTitle, clean);
    if aligned.Failure? {
      return Failure(aligned.error), [];
    }
    var out := aligned.value;
    var entries := new LyricInterval[|out|](i requires 0 <= i < |out| => out[i]);
    assert entries[..] == out;
    var withImages;
    withImages, requests := GenerateFromLyrics(entries, outDir, artstyle);
    var named := withImages[..];
    r := CreateVideoClipFromImages(duration, named, DEFAULT_FPS);
    FramesNamed(out, outDir);
    if r.Success? && 0.0 <= Rounded(timestamps[0].start)
      && (forall k :: 0 <= k < |timestamps| - 1 ==> Rounded(timestamps[k].start) <= Rounded(timestamps[k + 1].start))
      && Rounded(timestamps[|timestamps| - 1].start) <= Rounded(timestamps[|timestamps| - 1].end) <= duration as real
    {
      FramesCoverAudio(out, timestamps, duration as real, clean(cleanTitle, TITLE_FLAGS), clean, outDir);
      ScheduleLength(named, DEFAULT_FPS);
      RoundWholeSeconds(duration);
    }
  }

  lemma FramesNamed(out: seq<LyricInterval>, outDir: string)
    ensures AllNamed(WithImagePaths(out, outDir))
  {
    WithImagePathsKeepsEntries(out, outDir);
  }
}
