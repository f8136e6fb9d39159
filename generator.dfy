/**
  `generate_from_lyrics`: every entry of the aligned timeline is given the path
  of its image, `<out_dir>/<index as six digits>.jpg`, in place, and one image
  is requested per entry with that entry's lyric and the lower-cased art
  style. The image service and the file write are outside the model; the
  calls are returned, in order, as a list of requests.
*/
module Generator {
  import opened Wrappers
  import opened PyStrings
  import opened LyricData

  /** One call `generator.generate_image(lyric, style=style)` whose image is
      saved to `path`. */
  datatype ImageRequest = ImageRequest(lyric: string, style: string, path: string)

  /** The art style `generate_from_lyrics` uses when it is given none. */
  const DEFAULT_ARTSTYLE := "impressionist"

  /** The width `str(i).zfill(6)` pads the index to. */
  const INDEX_WIDTH: nat := 6

  /** `str(i).zfill(6)`: the index as a numeral of at least six digits. */
  function IndexStem(i: nat): string {
    ZFill(DecimalString(i), INDEX_WIDTH)
  }

  /** `str(i).zfill(6) + ".jpg"`. */
  function ImageName(i: nat): string {
    IndexStem(i) + ".jpg"
  }

  /** `os.path.join(out_dir, str(i).zfill(6) + ".jpg")`. */
  function ImagePath(outDir: string, i: nat): string {
    PathJoin(outDir, ImageName(i))
  }

  /** The timeline after the loop: entry `i` carries the path of image `i`,
      everything else as it was. */
  function WithImagePaths(entries: seq<LyricInterval>, outDir: string): (r: seq<LyricInterval>)
    ensures |r| == |entries|
  {
    seq(|entries|, i requires 0 <= i < |entries| => entries[i].(filename := Some(ImagePath(outDir, i))))
  }

  /** The image requests the loop makes, one per entry in order. */
  function Requests(entries: seq<LyricInterval>, outDir: string, style: string): (r: seq<ImageRequest>)
    ensures |r| == |entries|
  {
    seq(|entries|, i requires 0 <= i < |entries| => ImageRequest(entries[i].lyrics, style, ImagePath(outDir, i)))
  }

  /** `generate_from_lyrics(generator, aligned_lyrics, out_dir, artstyle)`:
      returns the same list, updated in place, and the requests made. */
  method GenerateFromLyrics(alignedLyrics: array<LyricInterval>, outDir: string, artstyle: string)
    returns (r: array<LyricInterval>, requests: seq<ImageRequest>)
    modifies alignedLyrics
    ensures r == alignedLyrics
    ensures alignedLyrics[..] == WithImagePaths(old(alignedLyrics[..]), outDir)
    ensures requests == Requests(old(alignedLyrics[..]), outDir, Lower(artstyle))
  {
    ghost var entries := alignedLyrics[..];
    var style := Lower(artstyle);
    requests := [];
    for i := 0 to alignedLyrics.Length
      invariant forall j :: 0 <= j < i ==> alignedLyrics[j] == entries[j].(filename := Some(ImagePath(outDir, j)))
      invariant forall j :: i <= j < alignedLyrics.Length ==> alignedLyrics[j] == entries[j]
      invariant requests == Requests(entries[..i], outDir, style)
    {
      var filename := ImagePath(outDir, i);
      alignedLyrics[i] := alignedLyrics[i].(filename := Some(filename));
      var lyric := alignedLyrics[i].lyrics;
      requests := requests + [ImageRequest(lyric, style, filename)];
    }
    r := alignedLyrics;
  }

  /** The loop changes only the filenames: times and lyrics stay, and every
      entry now has a filename, the one of its own index. */
  lemma WithImagePathsKeepsEntries(entries: seq<LyricInterval>, outDir: string)
    ensures forall i :: 0 <= i < |entries| ==>
      var e := WithImagePaths(entries, outDir)[i];
      e.start == entries[i].start && e.end == entries[i].end && e.lyrics == entries[i].lyrics
      && e.filename == Some(ImagePath(outDir, i))
  {
  }

  /** The request for entry `i` carries that entry's lyric, the style and the
      path entry `i` is given. */
  lemma RequestsFollowEntries(entries: seq<LyricInterval>, outDir: string, style: string)
    ensures forall i :: 0 <= i < |entries| ==>
      Requests(entries, outDir, style)[i].lyric == entries[i].lyrics
      && Requests(entries, outDir, style)[i].style == style
      && Some(Requests(entries, outDir, style)[i].path) == WithImagePaths(entries, outDir)[i].filename
  {
  }

  /** The stem is a numeral for the index, six digits long for indices below a million. */
  lemma IndexStemValue(i: nat)
    ensures forall k :: 0 <= k < |IndexStem(i)| ==> IsDigit(IndexStem(i)[k])
    ensures DecimalValue(IndexStem(i)) == i
    ensures i < Pow10(INDEX_WIDTH) ==> |IndexStem(i)| == INDEX_WIDTH
  {
    ZFillValue(DecimalString(i), INDEX_WIDTH);
    DecimalRoundTrip(i);
    if i < Pow10(INDEX_WIDTH) {
      DecimalStringLength(i, INDEX_WIDTH);
    }
  }

  /** Distinct indices give distinct file names. */
  lemma ImageNameInjective(i: nat, j: nat)
    requires ImageName(i) == ImageName(j)
    ensures i == j
  {
    var a, b := IndexStem(i), IndexStem(j);
    assert a == ImageName(i)[..|ImageName(i)| - 4];
    assert b == ImageName(j)[..|ImageName(j)| - 4];
    IndexStemValue(i);
    IndexStemValue(j);
  }

  /** Distinct entries are saved to distinct files, whatever the directory. */
  lemma ImagePathsDistinct(outDir: string, i: nat, j: nat)
    requires i != j
    ensures ImagePath(outDir, i) != ImagePath(outDir, j)
  {
    IndexStemValue(i);
    IndexStemValue(j);
    assert IsDigit(ImageName(i)[0]) && IsDigit(ImageName(j)[0]);
    PathJoinRelative(outDir, ImageName(i));
    PathJoinRelative(outDir, ImageName(j));
    var p := PathPrefix(outDir);
    if ImagePath(outDir, i) == ImagePath(outDir, j) {
      assert ImageName(i) == ImagePath(outDir, i)[|p|..];
      assert ImageName(j) == ImagePath(outDir, j)[|p|..];
      ImageNameInjective(i, j);
    }
  }

  /** Below a million entries the file names sort, as strings, in timeline order. */
  lemma ImagePathsOrdered(outDir: string, i: nat, j: nat)
    requires i < j < Pow10(INDEX_WIDTH)
    ensures LexLess(ImageName(i), ImageName(j))
    ensures LexLess(ImagePath(outDir, i), ImagePath(outDir, j))
  {
    IndexStemValue(i);
    IndexStemValue(j);
    DecimalOrder(IndexStem(i), IndexStem(j));
    LexLessAppend(IndexStem(i), IndexStem(j), ".jpg", ".jpg");
    assert IsDigit(ImageName(i)[0]) && IsDigit(ImageName(j)[0]);
    PathJoinRelative(outDir, ImageName(i));
    PathJoinRelative(outDir, ImageName(j));
    LexLessSharedPrefix(PathPrefix(outDir), ImageName(i), ImageName(j));
  }
}
