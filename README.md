# Lyric-to-art-video pipeline, modelled in Dafny

This project models the core of a music-video generator. The generator
transcribes a song into timed segments and cleans each line of lyrics. It then
lays the lines out as a contiguous timeline framed by the song title, asks an
image service for one picture per line, and repeats each picture for as many
video frames as its line lasts. The model covers:

- **TextCleaner**: `BasicLyricsCleaner.clean` and its private stages.
  - lowercasing;
  - punctuation removal;
  - the decontraction rules;
  - filler-word removal;
  - spelling correction, verb-to-gerund conversion and pronoun generalisation, which are optional;
  - stopword and short-token removal;
  - stripping.

  The token loops are methods proved against specification functions. The
  NLP services (SymSpell, spaCy and LemmInflect) are uninterpreted functions
  held in an `Nlp` value.
- **Lyricist**: `generate_aligned_lyrics_timestamp`. The method builds the
  same three parallel lists as the source (`all_starts`, `lyrics`, `ends`) and
  zips them together. It is proved to produce exactly the timeline below:
  - `n + 2` entries;
  - the first entry starts at 0 and the last ends at the audio length;
  - each entry ends where the next starts;
  - segment starts and the last segment end are rounded;
  - the title comes first and last;
  - cleaned lines are padded with the title when short.

  An empty segment list gives an `IndexError`, as `timestamps[-1]` does.
- **Generator**: `generate_from_lyrics`. It updates an array of entries in
  place, giving entry `i` the file `os.path.join(out_dir, str(i).zfill(6) + ".jpg")`. It returns
  the in-order list of image requests.
- **Movie**: the frame-list part of `create_video_clip_from_images`. A
  missing `"filename"` key gives a `KeyError`.
- **Dalle**: `STYLE_MAPPING`, `PROMPT_TEMPLATE` and the prompt construction of
  `generate_image`. `str.format` is modelled for `{}` fields, including the
  `IndexError` raised when there are too few arguments.
- **Pipeline**: the order in which `app.py` calls the steps, and lemmas that
  relate them.
- **PyStrings** and **PyNumbers**: the Python built-ins the code relies on.
  - `str.split()`, `" ".join`, `strip`, `lower`, `replace` and `re.sub` with a literal pattern;
  - `zfill`, `str(n)` and `os.path.join`;
  - `round(x, 1)`, rounding half to even on the exact value;
  - `int()`, truncating toward zero.

Times are the exact real values of the Python floats. `round(x, 1)` is a whole
number of tenths (`Round1`).

Behaviour of the code that the model keeps as written:

- Python's `round` rounds half to even on the exact value, and `Round1` does too.
- At 10 frames a second the `- 0.1` and the `+ 1` of the frame count cancel.
  An entry whose start and end round to the same tenth gets no frame
  (`Movie.InstantEntryGetsNoFrames`), and neither does an entry that ends before it starts.
- An empty segment list raises `IndexError` at `timestamps[-1]`, and the model
  returns `Failure(IndexError)`.
- The frame count uses four roundings (movie.py:20, 21, 23, 25) and an `int()` truncation, and
  `Movie.FrameCountTenths` gives its closed form.
- The slice `frame_paths[: duration * fps]` is computed and thrown away, so it
  never shortens the frame list (`Movie.BackwardsEntryOverruns`).

## Model

| member | source | states |
|---|---|---|
| TextCleaner.BASE_PRONOUNS_MAPPING | text_cleaner.py:9-34 | The pronoun table, all 24 entries as written, `he` to `someone` and `they` to `those people` included. |
| TextCleaner.STOPWORDS | text_cleaner.py:36 | The stopword tuple `("am", "an", "re")`. |
| TextCleaner.FILLER_WORDS | text_cleaner.py:177-187 | The nine filler words of `__remove_filler_words`, in the source's order. |
| TextCleaner.DEFAULT_FLAGS | text_cleaner.py:237-239 | The default arguments of `clean`: `convert_verbs`, `replace_pronouns` and `correct_spelling` are all true. |
| TextCleaner.RemovePunctuation | text_cleaner.py:115-120 | `__remove_punctuation`: the four `replace` calls in the source's order (`,` to a space, `.` deleted, `!` and `?` to a space). Its meaning is stated by `RemovePunctuationSpec`. |
| TextCleaner.RemovePunctuationSpec | text_cleaner.py:115-120 | The result is the input read character by character: each comma, `!` and `?` becomes one space, each period is deleted, every other character stays in order. No `,` `.` `!` `?` remains. |
| TextCleaner.RemovePunctuationOfClean | text_cleaner.py:115-120 | A string without those four characters passes through unchanged. |
| TextCleaner.RemovePunctuationIdempotent | text_cleaner.py:115-120 | Removing punctuation twice is the same as removing it once. |
| TextCleaner.SpecificRules | text_cleaner.py:204-205 | The two specific `re.sub` rules, `won't` then `can't`, each replacing every non-overlapping occurrence from the left. |
| TextCleaner.GeneralRules | text_cleaner.py:208-215 | The eight general `re.sub` rules in the source's order. |
| TextCleaner.Decontracted | text_cleaner.py:195-216 | `__decontracted`: the specific rules, then the general ones. |
| TextCleaner.DecontractedNoApostrophe | text_cleaner.py:204-216 | Every rule pattern contains an apostrophe, so a phrase without one comes back unchanged. |
| TextCleaner.GeneralRulesNeedApostrophe | text_cleaner.py:208-215 | The eight general rules leave a phrase without an apostrophe unchanged. |
| TextCleaner.DecontractedCant | text_cleaner.py:204-208 | `can't` becomes `can not`, because its specific rule runs before the generic `n't`. |
| TextCleaner.DecontractedWont | text_cleaner.py:204-208 | `won't` becomes `will not`. |
| TextCleaner.GenericRuleAloneMangles | text_cleaner.py:208 | The generic `n't` rule alone would turn `can't` into `ca not`. |
| TextCleaner.DecontractedExample | text_cleaner.py:204-216 | `i can't won't` becomes `i can not will not`: both specific rules fire and the general rules then find no apostrophe. |
| TextCleaner.DecontractedKeepsNoPunctuation | text_cleaner.py:204-216 | Decontraction introduces no comma, period, `!` or `?`. |
| TextCleaner.FillersRemoved | text_cleaner.py:177-193 | The value of `__remove_filler_words`: the `split()` tokens that are not fillers, joined by single spaces. The loop `RemoveFillerWords` is proved equal to it. |
| TextCleaner.RemoveFillerWords | text_cleaner.py:177-193 | The loop keeps, in order, exactly the whitespace tokens that are not among the nine fillers, joined by single spaces. |
| TextCleaner.FillersRemovedTokens | text_cleaner.py:177-193 | The result's tokens are the input's tokens in order with the fillers filtered out. A word is a token of the result exactly when it is a token of the input and not a filler. |
| TextCleaner.StopwordsRemoved | text_cleaner.py:227-232 | The value of `__remove_stopwords`: the tokens that pass `not in STOPWORDS and len(word) > 1`, joined by single spaces. |
| TextCleaner.RemoveStopwords | text_cleaner.py:227-232 | The loop keeps, in order, exactly the tokens longer than one character that are not `am`, `an` or `re`. |
| TextCleaner.StopwordsRemovedTokens | text_cleaner.py:227-232 | A word is a token of the result exactly when it is a token of the input, is longer than one character and is not a stopword. Order is preserved. |
| TextCleaner.StopwordsRemovedIdempotent | text_cleaner.py:227-232 | Removing stopwords twice is the same as removing them once. |
| TextCleaner.SpellingCorrected | text_cleaner.py:156-166 | The value of `__correct_spelling`: each `split()` token replaced by the dictionary's first lookup term, joined by single spaces. The loop `CorrectSpelling` is proved equal to it. |
| TextCleaner.CorrectSpelling | text_cleaner.py:156-166 | The loop replaces every token by its lookup term, in order. |
| TextCleaner.SpellingKeepsTokenCount | text_cleaner.py:156-166 | When the lookup returns single words, the output has as many tokens as the input, and token `k` is the lookup of input token `k`. |
| TextCleaner.Inflection | text_cleaner.py:59-70 | `get_inflection`: the VBG inflection of the word's VERB lemma, both taken from the services. |
| TextCleaner.GerundWords | text_cleaner.py:99-103 | The words the loop appends for a tagged document: `Inflection` of the text for a VERB token, the text itself otherwise. |
| TextCleaner.VerbsAsGerunds | text_cleaner.py:97-104 | The value of `__convert_verbs_to_gerund`: the document's words joined by single spaces. The loop `ConvertVerbsToGerund` is proved equal to it. |
| TextCleaner.ConvertVerbsToGerund | text_cleaner.py:97-104 | The loop emits one word per tagged token in order: the inflection of VERB tokens, the text of all others. |
| TextCleaner.GerundWordsAt | text_cleaner.py:97-104 | There is one word per token. A VERB token becomes `gerund(verbLemma(text))` and every other token keeps its text. |
| TextCleaner.PersonWord | text_cleaner.py:136-142 | The word for one token: the table's value for a PRON token that is a key, the token's text otherwise. |
| TextCleaner.PersonWords | text_cleaner.py:135-142 | The words the loop appends for a tagged document, one per token. |
| TextCleaner.PronounsGeneralised | text_cleaner.py:133-143 | The value of `__convert_pronouns_to_person`: those words joined by single spaces. The loop `ConvertPronounsToPerson` is proved equal to it. |
| TextCleaner.ConvertPronounsToPerson | text_cleaner.py:133-143 | The loop emits one word per tagged token in order, following the pronoun table. |
| TextCleaner.PersonWordsAt | text_cleaner.py:133-143 | A PRON token in the table becomes its mapped value. Every other token keeps its text, including a PRON token missing from the table. |
| TextCleaner.PronounExamples | text_cleaner.py:9-34 | `it` as PRON stays `it`. `i` becomes `person` and `they` becomes `those people`. A NOUN `i` stays. |
| TextCleaner.Normalised | text_cleaner.py:252-265 | The text `clean` holds just before stopword removal: lowered, punctuation removed, decontracted, fillers removed, then spelling corrected, verbs made gerunds and pronouns generalised, each only when its flag is set, in that order. |
| TextCleaner.Cleaned | text_cleaner.py:252-271 | The value of `clean`: the stages composed in the source's order, each optional stage guarded by its flag. |
| TextCleaner.Clean | text_cleaner.py:252-271 | `clean` runs its stages in the source's order: lower, punctuation, decontraction, fillers, then optional spelling, verbs and pronouns, then stopwords, then strip. |
| TextCleaner.CleanedShape | text_cleaner.py:252-271 | For any flags and services, the result has no whitespace at either end. It is its own tokens joined by single spaces, and each token is longer than one character and not a stopword. |
| TextCleaner.PlainCleanIgnoresNlp | text_cleaner.py:252-271 | With all three flags off, the result does not depend on the services. It is the fixed composition of the deterministic stages. |
| TextCleaner.PlainCleanHasNoPunctuation | text_cleaner.py:252-271 | With all three flags off, no comma, period, `!` or `?` survives cleaning. |
| TextCleaner.PunctuationFillerStopwordIdempotent | text_cleaner.py:253-267 | Running punctuation, filler and stopword removal again on its own output changes nothing. |
| LyricData.Segment | lyricist.py:22-31 | A transcribed segment, the dict with keys `"start"`, `"end"` and `"text"` that the aligner reads. |
| LyricData.LyricInterval | lyricist.py:53-55 | An aligned entry, the dict with keys `"start"`, `"end"` and `"lyrics"`, and the `"filename"` key that generator.py:25 adds (absent until then). |
| Lyricist.TITLE_FLAGS | lyricist.py:24-26 | The title is cleaned with `convert_verbs=True`, `replace_pronouns=False` and `correct_spelling=False`. |
| Lyricist.Padded | lyricist.py:36-37 | A cleaned line with fewer than three `split()` tokens gets `" " + title + " "` appended. A longer line stays as it is. |
| Lyricist.MiddleLyric | lyricist.py:31-39 | The lyric of the entry for a segment: its text cleaned with all three flags on, then padded. |
| Lyricist.GenerateAlignedLyricsTimestamp | lyricist.py:9-57 | Fails with `IndexError` exactly when there are no segments. Otherwise it returns the timeline fixed by `IsAlignment`: `n + 2` entries, first start 0, last end the audio length, contiguous, rounded segment starts, rounded last segment end, the cleaned title first and last, cleaned and padded lines in between, no filenames. |
| Lyricist.Assembled | lyricist.py:53-55 | Zipping the three parallel lists gives a timeline that keeps every one of those promises. |
| Lyricist.AlignmentUnique | lyricist.py:22-57 | The promises determine the timeline: two timelines that keep them for the same input are equal. |
| Lyricist.PaddedTokens | lyricist.py:36-37 | A line with fewer than three tokens splits into its own tokens followed by the title's. A longer line is left alone. |
| Lyricist.LyricsOfContentWords | lyricist.py:24-50 | If the cleaner leaves only content words (longer than one character, not stopwords) and the title is made of them, so is every lyric of the timeline. |
| Lyricist.AlignmentOrdered | lyricist.py:41-51 | When the rounded starts never go backwards, the first is not negative, and the last segment's rounded end lies between its rounded start and the audio length, no entry ends before it starts. |
| Generator.INDEX_WIDTH | generator.py:24 | The width 6 of `zfill(6)`. |
| Generator.IndexStem | generator.py:24 | `str(i).zfill(6)`: the decimal numeral of `i`, padded with zeros in front to six digits. Its properties are `Generator.IndexStemValue`. |
| Generator.ImageName | generator.py:24 | `str(i).zfill(6) + ".jpg"`: the file name of image `i`. `Generator.ImageNameInjective` states that distinct indices get distinct names. |
| Generator.ImagePath | generator.py:24 | `os.path.join(out_dir, str(i).zfill(6) + ".jpg")`. |
| Generator.WithImagePaths | generator.py:23-25 | The list after the loop: entry `i` with `"filename"` set to image path `i`. |
| Generator.Requests | generator.py:23-27 | The calls to `generate_image` the loop makes, in order: entry `i`'s lyric, the style, and the path the image is saved to. |
| Generator.GenerateFromLyrics | generator.py:21-29 | Returns the same array. Entry `i` gets filename `os.path.join(out_dir, str(i).zfill(6) + ".jpg")` and nothing else changes. It makes one request per entry, in order, with that entry's lyric and the lower-cased style. |
| Generator.WithImagePathsKeepsEntries | generator.py:23-25 | After assignment every entry keeps its start, end and lyric, and has the filename of its own index. |
| Generator.RequestsFollowEntries | generator.py:23-27 | Request `i` carries entry `i`'s lyric, the style, and the path given to entry `i`. |
| Generator.IndexStemValue | generator.py:24 | `str(i).zfill(6)` is a numeral denoting `i`. It is exactly six digits long below a million. |
| Generator.ImageNameInjective | generator.py:24 | Equal file names come from equal indices. |
| Generator.ImagePathsDistinct | generator.py:24 | Distinct entries are saved to distinct paths in any output directory. |
| Generator.ImagePathsOrdered | generator.py:24 | Below a million entries, file names and paths sort as strings in index order. |
| Movie.DEFAULT_FPS | movie.py:16 | The default frame rate `fps=10` of `create_video_clip_from_images`. |
| Movie.FrameCount | movie.py:20-25 | `int(round(end - st, 1) * fps) + 1` with `st` and `end` rounded as in lines 20-23. Its closed form is `Movie.FrameCountTenths`. |
| Movie.Block | movie.py:26-27 | The frames one entry adds: `[dt["filename"]] * num_frames`. |
| Movie.Schedule | movie.py:17-27 | `frame_paths` after the loop: each entry's filename repeated its frame count times, in entry order. |
| Movie.TotalFrames | movie.py:25-27 | The number of frames the loop adds: the sum over the entries of `num_frames`, where a non-positive count adds none because `[x] * n` is empty then. `Movie.ScheduleLength` ties it to the schedule. |
| Movie.CreateVideoClipFromImages | movie.py:16-29 | Fails with `KeyError("filename")` exactly when some entry has no filename. Otherwise it returns the concatenation, in entry order, of each entry's filename repeated its frame count times. The count is none when not positive. The discarded slice does not shorten the result. |
| Movie.Repeat | movie.py:26 | `[x] * n` has `n` copies of `x`, and none when `n` is not positive. |
| Movie.FrameCountTenths | movie.py:20-25 | With `s` and `e` the rounded start and end in tenths, an entry asks for `trunc((e - 1 - s) * fps / 10) + 1` frames. |
| Movie.FrameCountDefaultFps | movie.py:20-25 | At 10 frames a second an entry asks for `e - s` frames, one per tenth of a second. |
| Movie.OneSecondIsTenFrames | movie.py:23-25 | An entry from 0.0 to 1.0 gets 10 frames at the default rate. |
| Movie.InstantEntryGetsNoFrames | movie.py:23-25 | An entry whose start and end round to the same tenth gets no frame at the default rate. |
| Movie.ScheduleConcat | movie.py:19-27 | The schedule of two timelines laid one after the other is their two schedules one after the other. |
| Movie.ScheduleBlocks | movie.py:26-27 | Entry `k`'s frames sit between the frames of the entries before it and after it, and each of them is entry `k`'s file. |
| Movie.ScheduleLength | movie.py:25-27 | The schedule's length is the sum of the frame counts, each counted as at least zero. |
| Movie.TimelineFrames | movie.py:19-27 | At the default rate, a contiguous timeline whose entries do not run backwards gets `Round1(last end) - Round1(first start)` frames. |
| Movie.BackwardsEntryOverruns | movie.py:25-29 | Three contiguous entries spanning 0 s to 4 s, one of them running backwards, ask for 60 frames, more than `4 * fps`. The discarded slice does not cut them. |
| Dalle.PROMPT_TEMPLATE | dalle.py:8 | The prompt template: `an {} oil painting of a scene about {}` followed by the fixed list of quality phrases, character for character. |
| Dalle.STYLE_MAPPING | dalle.py:10-20 | The nine style names and their phrases, `anime` to `makoto shinkai art style` and `scifi` to `scifi scene` included. |
| Dalle.DEFAULT_STYLE | dalle.py:42 | The fallback phrase `"impressionist"` of `STYLE_MAPPING.get(style, "impressionist")`. |
| Dalle.ResolveStyle | dalle.py:42 | `STYLE_MAPPING.get(style, "impressionist")`. |
| Dalle.Format | dalle.py:41-43 | `template.format(*args)` for templates whose only braces are `{}` fields. Fields take the arguments in order, surplus arguments are ignored, and too few raise `IndexError`. |
| Dalle.ImagePrompt | dalle.py:41-43 | `PROMPT_TEMPLATE.format(STYLE_MAPPING.get(style, "impressionist"), prompt)`. |
| Dalle.ResolveStyleCases | dalle.py:41-43 | A known style resolves to its table entry, and any other name to `impressionist`. |
| Dalle.AnimeStyle | dalle.py:18 | `anime` resolves to `makoto shinkai art style`. |
| Dalle.ResolveStyleInTable | dalle.py:10-20 | Every style name resolves to one of the table's phrases. |
| Dalle.ResolveStyleCaseSensitive | dalle.py:10-20 | `Anime` misses the table and gets the default, while its lower-case form finds the anime phrase. |
| Dalle.KeysAreLowerCase | dalle.py:10-20 | Every key is already lower case, so lowering a key first (as generator.py:21 does) still finds its entry. |
| Dalle.FormatSucceeds | dalle.py:41-43 | On a template whose every brace belongs to a `{}` field, `format` succeeds exactly when there is an argument for every field, and raises `IndexError` otherwise. |
| Dalle.TemplateOnlyEmptyFields | dalle.py:8 | Every brace of the prompt template is one of its two `{}` fields, so `FormatSucceeds` applies to it. |
| Dalle.FormatTwoFields | dalle.py:41-43 | A template with two fields and no other braces, given two arguments, puts them in the fields in order. |
| Dalle.ImagePromptShape | dalle.py:8 | The prompt is the template text with the resolved style phrase in the first field and the lyric in the second. |
| Pipeline.BasicCleaner | lyricist.py:20-34 | The cleaner the aligner builds with `BasicLyricsCleaner()` and calls with the title flags and with the defaults: `clean` over the given NLP services. |
| Pipeline.BasicCleanerContentWords | text_cleaner.py:252-271 | The cleaner's output is made of content words for any flags and services. |
| Pipeline.LyricsAreContentWords | lyricist.py:24-39 | With the real cleaner, every lyric of the aligned timeline is made of content words. This includes the title entries and padded lines. |
| Pipeline.RequestPrompts | generator.py:21-27 | Every image request asks for the template filled with the phrase for the lower-cased style and the entry's lyric, and that phrase is always one of the table's nine phrases. |
| Pipeline.DefaultArtstyleResolves | generator.py:7 | The default art style `impressionist`, lower-cased as at generator.py:21, finds the table's `impressionist` phrase. |
| Pipeline.FramesNamed | generator.py:23-25 | After image assignment every entry has a filename, so frame building cannot raise `KeyError`. |
| Pipeline.FramesCoverAudio | app.py:115-148 | For an aligned timeline with ordered segments and images assigned, frame building at 10 frames a second asks for one frame per tenth of a second of audio. |
| Pipeline.ArtVideoFrames | app.py:115-148 | Align, assign images, build frames. This fails exactly when there are no segments. Otherwise it makes `n + 2` requests with the lower-cased style. For ordered segments and a whole-second song it gives exactly `duration * fps` frames, so the discarded slice would not have changed anything. |
| PyStrings.IsSpace | text_cleaner.py:156 | The characters for which `str.isspace()` is true, the separators of `split()` and `strip()`. |
| PyStrings.Split | text_cleaner.py:156 | `str.split()` with no argument: the maximal runs of non-whitespace characters, in order. |
| PyStrings.Join | text_cleaner.py:166 | `" ".join(ws)`: the words with one space between neighbours. |
| PyStrings.Strip | text_cleaner.py:269 | `str.strip()` with no argument: the string without its leading and trailing whitespace. |
| PyStrings.Replace | text_cleaner.py:116-119 | `str.replace(pat, rep)`, and `re.sub` with a pattern free of special characters: each non-overlapping occurrence, scanning from the left, becomes `rep`. |
| PyStrings.DecimalString | generator.py:24 | `str(n)` for a natural number: its decimal digits with no leading zero. |
| PyStrings.ZFill | generator.py:24 | `s.zfill(width)` for a numeral without a sign: zeros in front up to the width. |
| PyStrings.PathJoin | generator.py:24 | `os.path.join(a, b)` on POSIX: `b` alone when it is absolute, otherwise `a` and `b` with one `/` between them unless `a` is empty or ends in `/`. |
| PyStrings.LexLess | generator.py:24 | Python's `<` on strings: the first differing character decides, and a proper prefix comes first. |
| PyStrings.Lower | text_cleaner.py:252 | `lower()` keeps the length and lowers each ASCII capital in place. |
| PyStrings.SplitJoin | text_cleaner.py:188-193 | Joining words with single spaces and splitting again gives the words back. |
| PyStrings.SplitAroundSpace | lyricist.py:37 | Splitting at an inserted space splits each side on its own. |
| PyStrings.StripEdges | text_cleaner.py:269 | `strip()` leaves no whitespace at either end. |
| PyStrings.StripJoin | text_cleaner.py:269 | Stripping a space-joined string of words changes nothing. |
| PyStrings.ReplaceAbsent | text_cleaner.py:204-215 | Replacing a pattern that contains a character absent from the string changes nothing. |
| PyStrings.ReplaceKeepsChars | text_cleaner.py:116-119 | A character property that holds throughout the string and the replacement holds throughout the result. |
| PyStrings.FilterIdempotent | text_cleaner.py:227-232 | Filtering a filtered sequence again with the same test changes nothing. |
| PyStrings.DecimalRoundTrip | generator.py:24 | Reading back `str(n)` gives `n`. |
| PyStrings.ZFillValue | generator.py:24 | `zfill` of a numeral is a numeral with the same value, padded to the width. |
| PyStrings.DecimalOrder | generator.py:24 | On numerals of equal length, string order is numeric order. |
| PyStrings.PathJoinRelative | generator.py:24 | `os.path.join(a, b)` with a relative `b` is a prefix that depends on `a` alone, followed by `b`. |
| PyNumbers.Rounded | lyricist.py:22 | `round(x, 1)` as a time in seconds. |
| PyNumbers.Trunc | movie.py:25 | `int(x)` of a float: truncation toward zero. |
| PyNumbers.TruncDiv | movie.py:25 | Integer division truncating toward zero, the integer form of `int(a / b)`. |
| PyNumbers.Round1 | lyricist.py:22 | `round(x, 1)` is the nearest whole number of tenths, with ties going to the even one. |
| PyNumbers.RoundedIdempotent | movie.py:20-21 | Rounding an already-rounded time changes nothing. |
| PyNumbers.Round1Monotone | movie.py:20-21 | Rounding never reverses the order of two times. |
| PyNumbers.TruncTowardZero | movie.py:25 | `int(x)` is the whole number next to `x` on the side of zero. |
| PyNumbers.TruncTenthsTimes | movie.py:25 | `int(t * k)` for `t` a whole number of tenths is `m * k / 10`, truncated toward zero. |

## Left out

- Input and output are not modelled: downloading, transcription (whisperx), the OpenAI request, base64 and PIL decoding, the black placeholder image, `image.save`, the cv2 `VideoWriter` loop (movie.py:31-39) and `merge_audio_and_video`. Image generation is returned as a list of requests instead.
- NLP internals are not modelled. SymSpell's lookup, spaCy's tagger and LemmInflect's lemma and inflection are arbitrary functions. `BasicLyricsCleaner.__init__`, which loads the dictionary and the model, is not modelled.
- Lyricist.GenerateAlignedLyricsTimestamp: the aligner builds its own `BasicLyricsCleaner`. Here the cleaner is an argument instead. `Pipeline.BasicCleaner(nlp)` is the real one, and the Pipeline lemmas instantiate it.
- Floating point is not modelled. Times are exact reals, and `round(x, 1)` works on the exact value. The binary representation error of the rounded results is left out.
- PyStrings.Lower: maps only the ASCII capitals. Python's full Unicode case mapping is left out.
- PyStrings.ZFill: models numerals without a sign, which is all `str(i)` yields for an index.
- PyStrings.PathJoin: models the POSIX `os.path.join`. The Windows form (`ntpath.join`: backslashes, drive letters) is not modelled.
- Dalle.Format: models only `{}` fields. On any other brace (numbered or named fields, `{{`, format specs, a lone `}`) `str.format` parses differently or raises `ValueError`, which `Format` does not model; `FormatSucceeds` therefore requires `OnlyEmptyFields`, and the prompt template meets it (`Dalle.TemplateOnlyEmptyFields`).
- `get_clean_title` is not modelled: which branch runs depends on whether a foreign parser raises. The title arrives already cleaned by it.
- Not modelled: `app.py` (UI, URL check, duration gate, hashed output directory), `search.py` and the setup scripts. Only the order of the pipeline calls in `app.py` is modelled.
- `print` in `create_video_clip_from_images` is not modelled.
- The default argument `artstyle="impressionist"` of `generate_from_lyrics` (generator.py:7) is the constant `Generator.DEFAULT_ARTSTYLE`. Dafny has no default arguments, so callers pass the style explicitly; `Pipeline.DefaultArtstyleResolves` states what it resolves to.
- Movie.CreateVideoClipFromImages: `duration` is taken to be a whole number of seconds, as the downloader reports a video's length (the downloader is not part of this model). The `TypeError` that the slice at movie.py:29 raises for a non-integral `duration` is therefore not represented; the same holds for `Pipeline.ArtVideoFrames`.
