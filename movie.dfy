/**
  The frame schedule of `create_video_clip_from_images`: each timeline entry
  shows its image for a number of frames computed from its rounded start and
  end, and the blocks are laid end to end in timeline order. Writing the
  frames to a video file is outside the model.
*/
module Movie {
  import opened Wrappers
  import opened PyNumbers
  import opened LyricData

  /** The frame rate `create_video_clip_from_images` uses unless told otherwise. */
  const DEFAULT_FPS := 10

  /** `int(round(round(round(end, 1) - 0.1, 1) - round(start, 1), 1) * fps) + 1`:
      the number of frames an entry asks for. It may be zero or negative. */
  function FrameCount(entry: LyricInterval, fps: int): int {
    var st := Rounded(entry.start);
    var end := Rounded(Rounded(entry.end) - 0.1);
    Trunc(Times(Rounded(end - st), fps)) + 1
  }

  /** `[x] * n`: `n` copies of `x`, none when `n` is not positive. */
  function Repeat(x: string, n: int): (r: seq<string>)
    ensures |r| == if n > 0 then n else 0
    ensures forall i :: 0 <= i < |r| ==> r[i] == x
  {
    if n <= 0 then [] else Repeat(x, n - 1) + [x]
  }

  /** Every entry has a `"filename"` key. */
  predicate AllNamed(data: seq<LyricInterval>) {
    forall k :: 0 <= k < |data| ==> data[k].filename.Some?
  }

  /** The frames entry `entry` contributes. */
  function Block(entry: LyricInterval, fps: int): seq<string>
    requires entry.filename.Some?
  {
    Repeat(entry.filename.value, FrameCount(entry, fps))
  }

  /** The schedule `frame_paths` after the loop over `data`. */
  function Schedule(data: seq<LyricInterval>, fps: int): seq<string>
    requires AllNamed(data)
  {
    if data == [] then []
    else Schedule(data[..|data| - 1], fps) + Block(data[|data| - 1], fps)
  }

  /** The number of frames the blocks ask for, each counted as at least zero. */
  function TotalFrames(data: seq<LyricInterval>, fps: int): nat {
    if data == [] then 0
    else
      var n := FrameCount(data[|data| - 1], fps);
      TotalFrames(data[..|data| - 1], fps) + (if n > 0 then n else 0)
  }

  /** The frame list of `create_video_clip_from_images(duration, data, filename, fps)`.
      The slice `frame_paths[: duration * fps]` is computed and thrown away, so
      `duration` does not bound the result; a missing `"filename"` raises
      `KeyError`. */
  method CreateVideoClipFromImages(duration: int, data: seq<LyricInterval>, fps: int)
    returns (r: Result<seq<string>>)
    ensures r.Failure? <==> !AllNamed(data)
    ensures r.Failure? ==> r.error == KeyError("filename")
    ensures r.Success? ==> r.value == Schedule(data, fps)
  {
    var framePaths: seq<string> := [];
    for i := 0 to |data|
      invariant AllNamed(data[..i])
      invariant framePaths == Schedule(data[..i], fps)
    {
      var dt := data[i];
      var st := Rounded(dt.start);
      var end := Rounded(dt.end);
      end := Rounded(end - 0.1);
      var numFrames := Trunc(Times(Rounded(end - st), fps)) + 1;
      assert numFrames == FrameCount(dt, fps);
      if dt.filename.None? {
        return Failure(KeyError("filename"));
      }
      var frames := Repeat(dt.filename.value, numFrames);
      assert data[..i + 1][..i] == data[..i];
      framePaths := framePaths + frames;
    }
    assert data[..|data|] == data;
    return Success(framePaths);
  }

  /** In whole tenths: with `s` and `e` the rounded start and end in tenths,
      an entry asks for `(e - 1 - s) * fps / 10 + 1` frames, the division
      truncating toward zero. */
  lemma FrameCountTenths(entry: LyricInterval, fps: int)
    ensures FrameCount(entry, fps) == TruncDiv((Round1(entry.end) - 1 - Round1(entry.start)) * fps, 10) + 1
  {
    var s, e := Round1(entry.start), Round1(entry.end);
    StepBack(e);
    TruncRoundedDifference(Rounded(entry.start), Rounded(Rounded(entry.end) - 0.1), fps, s, e - 1);
  }

  /** `int(round(end - st, 1) * fps)` for times in whole tenths. */
  lemma TruncRoundedDifference(st: real, end: real, fps: int, b: int, a: int)
    requires st == Tenths(b) && end == Tenths(a)
    ensures Trunc(Times(Rounded(end - st), fps)) == TruncDiv((a - b) * fps, 10)
  {
    assert Rounded(end - st) == Tenths(a - b) by { TenthsDifference(a, b); }
    TruncTimesTenths(a - b, fps);
  }

  /** `round(t - 0.1, 1)` of a time `t` in whole tenths is one tenth earlier. */
  lemma StepBack(e: int)
    ensures Round1(Tenths(e) - 0.1) == e - 1
  {
    assert Tenths(e) - 0.1 == Tenths(e - 1);
    RoundTenths(e - 1);
  }

  /** The difference of two times in whole tenths rounds to itself. */
  lemma TenthsDifference(a: int, b: int)
    ensures Round1(Tenths(a) - Tenths(b)) == a - b
  {
    assert Tenths(a) - Tenths(b) == Tenths(a - b);
    RoundTenths(a - b);
  }

  /** At the default 10 frames a second an entry asks for one frame per tenth
      of a second between its rounded start and end. */
  lemma FrameCountDefaultFps(entry: LyricInterval)
    ensures FrameCount(entry, DEFAULT_FPS) == Round1(entry.end) - Round1(entry.start)
  {
    FrameCountTenths(entry, DEFAULT_FPS);
  }

  /** An entry from 0.0 s to 1.0 s gets ten frames at 10 frames a second. */
  lemma OneSecondIsTenFrames(name: string)
    ensures FrameCount(LyricInterval(0.0, 1.0, "", Some(name)), DEFAULT_FPS) == 10
  {
    var entry := LyricInterval(0.0, 1.0, "", Some(name));
    FrameCountDefaultFps(entry);
    RoundWholeSeconds(0);
    RoundWholeSeconds(1);
  }

  /** The `- 0.1` and the `+ 1` cancel at 10 frames a second, so an entry whose
      start and end round to the same tenth gets no frame at all. */
  lemma InstantEntryGetsNoFrames(entry: LyricInterval)
    requires Round1(entry.start) == Round1(entry.end)
    ensures FrameCount(entry, DEFAULT_FPS) == 0
  {
    FrameCountDefaultFps(entry);
  }

  /** The schedule of two timelines one after the other is their schedules one
      after the other. */
  lemma {:induction false} ScheduleConcat(a: seq<LyricInterval>, b: seq<LyricInterval>, fps: int)
    requires AllNamed(a) && AllNamed(b)
    ensures AllNamed(a + b)
    ensures Schedule(a + b, fps) == Schedule(a, fps) + Schedule(b, fps)
    decreases |b|
  {
    if b == [] {
      assert a + b == a;
    } else {
      var b', x := b[..|b| - 1], b[|b| - 1];
      assert b == b' + [x];
      var ab := a + b';
      assert a + b == ab + [x];
      ScheduleConcat(a, b', fps);
      ScheduleSnoc(ab, x, fps);
      ScheduleSnoc(b', x, fps);
      assert Schedule(a, fps) + Schedule(b', fps) + Block(x, fps) == Schedule(a, fps) + (Schedule(b', fps) + Block(x, fps));
    }
  }

  /** One more entry at the end adds its block at the end. */
  lemma ScheduleSnoc(s: seq<LyricInterval>, x: LyricInterval, fps: int)
    requires AllNamed(s) && x.filename.Some?
    ensures AllNamed(s + [x])
    ensures Schedule(s + [x], fps) == Schedule(s, fps) + Block(x, fps)
  {
    assert (s + [x])[..|s|] == s;
  }

  /** The frames of entry `k` sit between those of the entries before it and
      those after it, and every one of them is entry `k`'s file. */
  lemma ScheduleBlocks(data: seq<LyricInterval>, fps: int, k: nat)
    requires AllNamed(data) && k < |data|
    ensures Schedule(data, fps) == Schedule(data[..k], fps) + Block(data[k], fps) + Schedule(data[k + 1..], fps)
    ensures forall i :: 0 <= i < |Block(data[k], fps)| ==> Block(data[k], fps)[i] == data[k].filename.value
  {
    assert data == data[..k] + [data[k]] + data[k + 1..];
    ScheduleConcat(data[..k] + [data[k]], data[k + 1..], fps);
    ScheduleConcat(data[..k], [data[k]], fps);
    assert Schedule([data[k]], fps) == Block(data[k], fps) by {
      assert [data[k]][..0] == [];
    }
  }

  /** The schedule is as long as the frame counts add up to. */
  lemma {:induction false} ScheduleLength(data: seq<LyricInterval>, fps: int)
    requires AllNamed(data)
    ensures |Schedule(data, fps)| == TotalFrames(data, fps)
    decreases |data|
  {
    if data != [] {
      ScheduleLength(data[..|data| - 1], fps);
    }
  }

  /** No entry ends, once rounded, before it starts. */
  predicate RoundedOrdered(data: seq<LyricInterval>) {
    forall i :: 0 <= i < |data| ==> Round1(data[i].start) <= Round1(data[i].end)
  }

  /** At the default rate a contiguous timeline whose entries do not run
      backwards gets one frame per tenth of a second from the rounded start of
      its first entry to the rounded end of its last. */
  lemma {:induction false} TimelineFrames(data: seq<LyricInterval>)
    requires data != [] && Contiguous(data) && RoundedOrdered(data)
    ensures TotalFrames(data, DEFAULT_FPS) == Round1(data[|data| - 1].end) - Round1(data[0].start)
    decreases |data|
  {
    var last := data[|data| - 1];
    FrameCountDefaultFps(last);
    if |data| > 1 {
      var init := data[..|data| - 1];
      assert init[|init| - 1].end == last.start;
      TimelineFrames(init);
    }
  }

  /** An entry that runs backwards gets no frames rather than taking some
      away, so the schedule can be longer than the timeline: three contiguous
      entries spanning 0 s to 4 s ask for 6 s of frames at 10 frames a second,
      and the thrown-away slice does not cut them to `4 * 10`. */
  lemma BackwardsEntryOverruns(name: string)
    ensures var data := [LyricInterval(0.0, 5.0, "", Some(name)), LyricInterval(5.0, 3.0, "", Some(name)),
                         LyricInterval(3.0, 4.0, "", Some(name))];
            TotalFrames(data, DEFAULT_FPS) == 60 > 4 * DEFAULT_FPS
  {
    var data := [LyricInterval(0.0, 5.0, "", Some(name)), LyricInterval(5.0, 3.0, "", Some(name)),
                 LyricInterval(3.0, 4.0, "", Some(name))];
    RoundWholeSeconds(0);
    RoundWholeSeconds(3);
    RoundWholeSeconds(4);
    RoundWholeSeconds(5);
    FrameCountDefaultFps(data[0]);
    FrameCountDefaultFps(data[1]);
    FrameCountDefaultFps(data[2]);
    assert data[..2][..1] == [data[0]] && data[..2][..1][..0] == [];
    assert TotalFrames(data[..2][..1], DEFAULT_FPS) == 50;
    assert TotalFrames(data[..2], DEFAULT_FPS) == 50;
  }
}
