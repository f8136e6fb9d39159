/**
  The records that flow through the pipeline: a speech-recognition segment and
  an entry of the aligned lyric timeline. Times are seconds, as the exact value
  of the Python float.
*/
module LyricData {
  import opened Wrappers

  /** A transcribed segment: `{"start", "end", "text"}`. */
  datatype Segment = Segment(start: real, end: real, text: string)

  /** An aligned entry: `{"start", "end", "lyrics"}`, plus the `"filename"` key
      that image generation adds (`None` while it is absent). */
  datatype LyricInterval = LyricInterval(start: real, end: real, lyrics: string, filename: Option<string>)

  /** Adjacent entries meet: each ends where the next starts. */
  predicate Contiguous(entries: seq<LyricInterval>) {
    forall i, j :: 0 <= i < |entries| && 0 <= j < |entries| && j == i + 1 ==> entries[i].end == entries[j].start
  }
}
