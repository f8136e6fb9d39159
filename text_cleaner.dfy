/**
  The lyric normaliser `BasicLyricsCleaner` (text_cleaner.py): a fixed chain of
  string transforms that turns a transcribed line into an image prompt.

  The three linguistic services the cleaner loads at construction time are
  parameters here (`Nlp`): the SymSpell lookup, the spaCy tagger and the two
  LemmInflect calls. Nothing is assumed about what they return.
*/
module TextCleaner {
  import opened PyStrings

  // ---------------------------------------------------------------------
  // Constants
  // ---------------------------------------------------------------------

  const BASE_PRONOUNS_MAPPING: map<string, string> := map[
    "i" := "person", "im" := "person", "me" := "person", "my" := "person's",
    "mine" := "someone's", "we" := "people", "us" := "people", "our" := "people's",
    "ours" := "people's", "you" := "person", "your" := "person's", "yours" := "person's",
    "he" := "someone", "him" := "someone's", "his" := "someone's", "himself" := "someone",
    "she" := "someone", "her" := "someone's", "hers" := "someone's", "herself" := "someone",
    "they" := "those people", "them" := "those people", "their" := "those people's",
    "theirs" := "those people's"
  ]

  const STOPWORDS: seq<string> := ["am", "an", "re"]

  const FILLER_WORDS: seq<string> := ["yea", "yeah", "oh", "cmon", "ooh", "woah", "hmm", "mmmm", "ohh"]

  // ---------------------------------------------------------------------
  // The linguistic services
  // ---------------------------------------------------------------------

  /** A token of a tagged document: its text and its coarse part of speech (`token.pos_`). */
  datatype Token = Token(text: string, pos: string)

  /** The services the cleaner holds:
      `lookup(w)` is the term of the first SymSpell suggestion for `w`
      (at most two edits, closest first, unknown words included);
      `tag(s)` is the spaCy document of `s`;
      `verbLemma(w)` and `gerund(l)` are the first results of LemmInflect's
      `getLemma(w, upos="VERB")` and `getInflection(l, tag="VBG")`. */
  datatype Nlp = Nlp(
    lookup: string -> string,
    tag: string -> seq<Token>,
    verbLemma: string -> string,
    gerund: string -> string)

  /** The keyword arguments of `clean`. */
  datatype Flags = Flags(convertVerbs: bool, replacePronouns: bool, correctSpelling: bool)

  /** `clean(lyrics)` with its default arguments. */
  const DEFAULT_FLAGS := Flags(true, true, true)

  // ---------------------------------------------------------------------
  // Punctuation
  // ---------------------------------------------------------------------

  predicate IsPunctuation(c: char) {
    c == ',' || c == '.' || c == '!' || c == '?'
  }

  predicate NotPunctuation(c: char) {
    !IsPunctuation(c)
  }

  /** No comma, period, `!` or `?` anywhere in `s`. */
  predicate Unpunctuated(s: string) {
    forall i :: 0 <= i < |s| ==> NotPunctuation(s[i])
  }

  /** `__remove_punctuation`: four replacements, in the source's order. */
  function RemovePunctuation(lyrics: string): string {
    Replace(Replace(Replace(Replace(lyrics, ",", " "), ".", ""), "!", " "), "?", " ")
  }

  /** What becomes of each character: a comma, `!` or `?` becomes one space, a
      period disappears, anything else stays. */
  function PunctuationImage(c: char): string {
    if c == ',' || c == '!' || c == '?' then " " else if c == '.' then "" else [c]
  }

  /** The reference reading of punctuation removal, character by character. */
  function SpacedOut(s: string): string {
    if s == [] then [] else PunctuationImage(s[0]) + SpacedOut(s[1..])
  }

  /** Removing punctuation treats each character on its own, as `SpacedOut` says. */
  lemma {:induction false} RemovePunctuationPerChar(s: string)
    ensures RemovePunctuation(s) == SpacedOut(s)
  {
    if s != [] {
      var x, t := s[0], s[1..];
      assert s == [x] + t;
      RemovePunctuationPerChar(t);
      var r1 := Replace([x], ",", " ");
      var r2 := Replace(r1, ".", "");
      var r3 := Replace(r2, "!", " ");
      var t1 := Replace(t, ",", " ");
      var t2 := Replace(t1, ".", "");
      var t3 := Replace(t2, "!", " ");
      ReplaceCharConcat([x], t, ',', " ");
      ReplaceCharConcat(r1, t1, '.', "");
      ReplaceCharConcat(r2, t2, '!', " ");
      ReplaceCharConcat(r3, t3, '?', " ");
      ReplaceCharSingle(x, ',', " ");
      ReplaceCharSingle(' ', '.', "");
      ReplaceCharSingle(' ', '!', " ");
      ReplaceCharSingle(' ', '?', " ");
      ReplaceCharSingle(x, '.', "");
      ReplaceCharSingle(x, '!', " ");
      ReplaceCharSingle(x, '?', " ");
      assert Replace([], "!", " ") == [];
      assert Replace([], "?", " ") == [];
    }
  }

  /** No comma, period, `!` or `?` is left. */
  lemma {:induction false} SpacedOutHasNoPunctuation(s: string)
    ensures forall i :: 0 <= i < |SpacedOut(s)| ==> NotPunctuation(SpacedOut(s)[i])
  {
    if s != [] {
      SpacedOutHasNoPunctuation(s[1..]);
      var h := PunctuationImage(s[0]);
      assert SpacedOut(s) == h + SpacedOut(s[1..]);
      forall i | 0 <= i < |SpacedOut(s)| ensures NotPunctuation(SpacedOut(s)[i]) {
        if i >= |h| {
          assert SpacedOut(s)[i] == SpacedOut(s[1..])[i - |h|];
        }
      }
    }
  }

  /** A string without punctuation is its own `SpacedOut`. */
  lemma {:induction false} SpacedOutOfClean(s: string)
    requires forall i :: 0 <= i < |s| ==> NotPunctuation(s[i])
    ensures SpacedOut(s) == s
  {
    if s != [] {
      SpacedOutOfClean(s[1..]);
    }
  }

  /** The output of `__remove_punctuation` has no `,` `.` `!` `?`; each comma,
      `!` and `?` became exactly one space, each period was deleted, and every
      other character is kept in order. */
  lemma RemovePunctuationSpec(s: string)
    ensures RemovePunctuation(s) == SpacedOut(s)
    ensures forall i :: 0 <= i < |RemovePunctuation(s)| ==> NotPunctuation(RemovePunctuation(s)[i])
  {
    RemovePunctuationPerChar(s);
    SpacedOutHasNoPunctuation(s);
  }

  /** A string without punctuation passes through `__remove_punctuation` unchanged. */
  lemma RemovePunctuationOfClean(s: string)
    requires forall i :: 0 <= i < |s| ==> NotPunctuation(s[i])
    ensures RemovePunctuation(s) == s
  {
    RemovePunctuationPerChar(s);
    SpacedOutOfClean(s);
  }

  /** Removing punctuation twice is removing it once. */
  lemma RemovePunctuationIdempotent(s: string)
    ensures RemovePunctuation(RemovePunctuation(s)) == RemovePunctuation(s)
  {
    RemovePunctuationSpec(s);
    RemovePunctuationOfClean(RemovePunctuation(s));
  }

  // ---------------------------------------------------------------------
  // Contractions
  // ---------------------------------------------------------------------

  /** The two specific rules of `__decontracted`, in order. */
  function SpecificRules(phrase: string): string {
    var s1 := Replace(phrase, "won't", "will not");
    Replace(s1, "can't", "can not")
  }

  /** The general rules of `__decontracted`, in order. */
  function GeneralRules(phrase: string): string {
    var s3 := Replace(phrase, "n't", " not");
    var s4 := Replace(s3, "'re", " are");
    var s5 := Replace(s4, "'s", " is");
    var s6 := Replace(s5, "'d", " would");
    var s7 := Replace(s6, "'ll", " will");
    var s8 := Replace(s7, "'t", " not");
    var s9 := Replace(s8, "'ve", " have");
    Replace(s9, "'m", " am")
  }

  /** `__decontracted`: the specific rules, then the general ones. */
  function Decontracted(phrase: string): string {
    GeneralRules(SpecificRules(phrase))
  }

  /** The general rules leave a phrase without an apostrophe unchanged. */
  lemma GeneralRulesNeedApostrophe(s: string)
    requires '\'' !in s
    ensures GeneralRules(s) == s
  {
    ReplaceAbsent(s, "n't", " not", '\'');
    ReplaceAbsent(s, "'re", " are", '\'');
    ReplaceAbsent(s, "'s", " is", '\'');
    ReplaceAbsent(s, "'d", " would", '\'');
    ReplaceAbsent(s, "'ll", " will", '\'');
    ReplaceAbsent(s, "'t", " not", '\'');
    ReplaceAbsent(s, "'ve", " have", '\'');
    ReplaceAbsent(s, "'m", " am", '\'');
  }

  /** Every contraction pattern contains an apostrophe, so a phrase without one is unchanged. */
  lemma DecontractedNoApostrophe(phrase: string)
    requires '\'' !in phrase
    ensures Decontracted(phrase) == phrase
  {
    ReplaceAbsent(phrase, "won't", "will not", '\'');
    ReplaceAbsent(phrase, "can't", "can not", '\'');
    GeneralRulesNeedApostrophe(phrase);
  }

  /** Decontraction introduces no punctuation. */
  lemma DecontractedKeepsNoPunctuation(s: string)
    requires forall i :: 0 <= i < |s| ==> NotPunctuation(s[i])
    ensures forall i :: 0 <= i < |Decontracted(s)| ==> NotPunctuation(Decontracted(s)[i])
  {
    var s1 := Replace(s, "won't", "will not");
    ReplaceKeepsChars(s, "won't", "will not", NotPunctuation);
    ReplaceKeepsChars(s1, "can't", "can not", NotPunctuation);
    GeneralRulesKeepNoPunctuation(SpecificRules(s));
  }

  lemma GeneralRulesKeepNoPunctuation(s: string)
    requires forall i :: 0 <= i < |s| ==> NotPunctuation(s[i])
    ensures forall i :: 0 <= i < |GeneralRules(s)| ==> NotPunctuation(GeneralRules(s)[i])
  {
    var s3 := Replace(s, "n't", " not");
    var s4 := Replace(s3, "'re", " are");
    var s5 := Replace(s4, "'s", " is");
    var s6 := Replace(s5, "'d", " would");
    var s7 := Replace(s6, "'ll", " will");
    var s8 := Replace(s7, "'t", " not");
    var s9 := Replace(s8, "'ve", " have");
    ReplaceKeepsChars(s, "n't", " not", NotPunctuation);
    ReplaceKeepsChars(s3, "'re", " are", NotPunctuation);
    ReplaceKeepsChars(s4, "'s", " is", NotPunctuation);
    ReplaceKeepsChars(s5, "'d", " would", NotPunctuation);
    ReplaceKeepsChars(s6, "'ll", " will", NotPunctuation);
    ReplaceKeepsChars(s7, "'t", " not", NotPunctuation);
    ReplaceKeepsChars(s8, "'ve", " have", NotPunctuation);
    ReplaceKeepsChars(s9, "'m", " am", NotPunctuation);
  }

  /** `can't` becomes `can not`: its specific rule fires before the generic `n't`. */
  lemma DecontractedCant()
    ensures Decontracted("can't") == "can not"
  {
    SpecificRulesOnCant("can't");
    GeneralRulesNeedApostrophe("can not");
  }

  lemma SpecificRulesOnCant(phrase: string)
    requires phrase == "can't"
    ensures SpecificRules(phrase) == "can not"
  {
    ReplaceAbsent(phrase, "won't", "will not", 'w');
    ReplaceWhole(phrase, "can not");
  }

  /** `won't` becomes `will not`. */
  lemma DecontractedWont()
    ensures Decontracted("won't") == "will not"
  {
    SpecificRulesOnWont("won't");
    GeneralRulesNeedApostrophe("will not");
  }

  lemma SpecificRulesOnWont(phrase: string)
    requires phrase == "won't"
    ensures SpecificRules(phrase) == "will not"
  {
    ReplaceWhole(phrase, "will not");
    ReplaceAbsent("will not", "can't", "can not", '\'');
  }

  /** Both specific rules in one line: `i can't won't` becomes `i can not will not`. */
  lemma DecontractedExample()
    ensures Decontracted("i can't won't") == "i can not will not"
  {
    WontInExample();
    CantInExample();
    GeneralRulesNeedApostrophe("i can not will not");
  }

  lemma WontInExample()
    ensures Replace("i can't won't", "won't", "will not") == "i can't will not"
  {
    ReplaceOnce("i can't ", "won't", "", "will not", 'w');
    assert "i can't " + "won't" + "" == "i can't won't";
    assert "i can't " + "will not" + "" == "i can't will not";
  }

  lemma CantInExample()
    ensures Replace("i can't will not", "can't", "can not") == "i can not will not"
  {
    var a, b := "i ", " will not";
    ReplaceOnce(a, "can't", b, "can not", 'c');
    assert a + "can't" + b == "i can't will not";
    assert a + "can not" + b == "i can not will not";
  }

  /** Had the generic rule run first, `can't` would have become `ca not`. */
  lemma GenericRuleAloneMangles()
    ensures Replace("can't", "n't", " not") == "ca not"
  {
    assert !StartsWith("can't", "n't");
    assert !StartsWith("an't", "n't");
    assert StartsWith("n't", "n't");
  }

  // ---------------------------------------------------------------------
  // Filler words and stopwords
  // ---------------------------------------------------------------------

  predicate NotFiller(w: string) {
    w !in FILLER_WORDS
  }

  /** What `__remove_filler_words` returns. */
  function FillersRemoved(lyrics: string): string {
    Join(Filter(Split(lyrics), NotFiller))
  }

  /** `__remove_filler_words`. */
  method RemoveFillerWords(lyrics: string) returns (r: string)
    ensures r == FillersRemoved(lyrics)
  {
    var words := Split(lyrics);
    var newLyrics: seq<string> := [];
    for i := 0 to |words|
      invariant newLyrics == Filter(words[..i], NotFiller)
    {
      assert words[..i + 1][..i] == words[..i];
      if words[i] !in FILLER_WORDS {
        newLyrics := newLyrics + [words[i]];
      }
    }
    assert words[..|words|] == words;
    r := Join(newLyrics);
  }

  /** The tokens of the result are the tokens of the input, in order, without the fillers. */
  lemma FillersRemovedTokens(lyrics: string)
    ensures Split(FillersRemoved(lyrics)) == Filter(Split(lyrics), NotFiller)
    ensures forall w :: w in Split(FillersRemoved(lyrics)) <==> w in Split(lyrics) && w !in FILLER_WORDS
  {
    SplitGivesWords(lyrics);
    FilterWords(Split(lyrics), NotFiller);
    SplitJoin(Filter(Split(lyrics), NotFiller));
    forall w ensures w in Split(FillersRemoved(lyrics)) <==> w in Split(lyrics) && w !in FILLER_WORDS {
      FilterMember(Split(lyrics), NotFiller, w);
    }
  }

  predicate KeepWord(w: string) {
    w !in STOPWORDS && |w| > 1
  }

  /** What `__remove_stopwords` returns. */
  function StopwordsRemoved(lyrics: string): string {
    Join(Filter(Split(lyrics), KeepWord))
  }

  /** `__remove_stopwords`. */
  method RemoveStopwords(lyrics: string) returns (r: string)
    ensures r == StopwordsRemoved(lyrics)
  {
    var words := Split(lyrics);
    var newLyrics: seq<string> := [];
    for i := 0 to |words|
      invariant newLyrics == Filter(words[..i], KeepWord)
    {
      assert words[..i + 1][..i] == words[..i];
      if words[i] !in STOPWORDS && |words[i]| > 1 {
        newLyrics := newLyrics + [words[i]];
      }
    }
    assert words[..|words|] == words;
    r := Join(newLyrics);
  }

  /** The tokens of the result are the input's tokens longer than one character
      and not among the stopwords, in their original order. */
  lemma StopwordsRemovedTokens(lyrics: string)
    ensures Split(StopwordsRemoved(lyrics)) == Filter(Split(lyrics), KeepWord)
    ensures forall w :: w in Split(StopwordsRemoved(lyrics)) <==> w in Split(lyrics) && w !in STOPWORDS && |w| > 1
  {
    SplitGivesWords(lyrics);
    FilterWords(Split(lyrics), KeepWord);
    SplitJoin(Filter(Split(lyrics), KeepWord));
    forall w ensures w in Split(StopwordsRemoved(lyrics)) <==> w in Split(lyrics) && KeepWord(w) {
      FilterMember(Split(lyrics), KeepWord, w);
    }
  }

  /** Removing stopwords twice is removing them once. */
  lemma StopwordsRemovedIdempotent(lyrics: string)
    ensures StopwordsRemoved(StopwordsRemoved(lyrics)) == StopwordsRemoved(lyrics)
  {
    StopwordsRemovedTokens(lyrics);
    FilterIdempotent(Split(lyrics), KeepWord);
  }

  // ---------------------------------------------------------------------
  // Spelling correction
  // ---------------------------------------------------------------------

  /** What `__correct_spelling` returns. */
  function SpellingCorrected(lyrics: string, nlp: Nlp): string {
    Join(MapSeq(Split(lyrics), nlp.lookup))
  }

  /** `__correct_spelling`. */
  method CorrectSpelling(lyrics: string, nlp: Nlp) returns (r: string)
    ensures r == SpellingCorrected(lyrics, nlp)
  {
    var words := Split(lyrics);
    var newWords: seq<string> := [];
    for i := 0 to |words|
      invariant newWords == MapSeq(words[..i], nlp.lookup)
    {
      assert words[..i + 1][..i] == words[..i];
      newWords := newWords + [nlp.lookup(words[i])];
    }
    assert words[..|words|] == words;
    r := Join(newWords);
  }

  /** Each input token yields exactly one output token, its lookup term, in
      order, provided the dictionary returns single words. */
  lemma SpellingKeepsTokenCount(lyrics: string, nlp: Nlp)
    requires forall w :: IsWord(w) ==> IsWord(nlp.lookup(w))
    ensures |Split(SpellingCorrected(lyrics, nlp))| == |Split(lyrics)|
    ensures forall k :: 0 <= k < |Split(lyrics)| ==>
      Split(SpellingCorrected(lyrics, nlp))[k] == nlp.lookup(Split(lyrics)[k])
  {
    var words := Split(lyrics);
    SplitGivesWords(lyrics);
    MapSeqAt(words, nlp.lookup);
    SplitJoin(MapSeq(words, nlp.lookup));
  }

  // ---------------------------------------------------------------------
  // Verbs to gerunds, pronouns to persons
  // ---------------------------------------------------------------------

  /** `get_inflection`: the gerund of the verb lemma of `word`. */
  function Inflection(word: string, nlp: Nlp): string {
    nlp.gerund(nlp.verbLemma(word))
  }

  /** The words `__convert_verbs_to_gerund` emits for a tagged document. */
  function GerundWords(doc: seq<Token>, nlp: Nlp): seq<string> {
    if doc == [] then []
    else
      var t := doc[|doc| - 1];
      GerundWords(doc[..|doc| - 1], nlp) + [if t.pos == "VERB" then Inflection(t.text, nlp) else t.text]
  }

  /** What `__convert_verbs_to_gerund` returns. */
  function VerbsAsGerunds(lyrics: string, nlp: Nlp): string {
    Join(GerundWords(nlp.tag(lyrics), nlp))
  }

  /** `__convert_verbs_to_gerund`. */
  method ConvertVerbsToGerund(lyrics: string, nlp: Nlp) returns (r: string)
    ensures r == VerbsAsGerunds(lyrics, nlp)
  {
    var doc := nlp.tag(lyrics);
    var newLyrics: seq<string> := [];
    for i := 0 to |doc|
      invariant newLyrics == GerundWords(doc[..i], nlp)
    {
      assert doc[..i + 1][..i] == doc[..i];
      if doc[i].pos == "VERB" {
        newLyrics := newLyrics + [Inflection(doc[i].text, nlp)];
      } else {
        newLyrics := newLyrics + [doc[i].text];
      }
    }
    assert doc[..|doc|] == doc;
    r := Join(newLyrics);
  }

  /** One word per token: a VERB token becomes its gerund, any other token stays as it is.
      This speaks of the word list before it is joined; `Split` of the joined text has
      more words than tokens when a word holds a space. */
  lemma {:induction false} GerundWordsAt(doc: seq<Token>, nlp: Nlp)
    ensures |GerundWords(doc, nlp)| == |doc|
    ensures forall k :: 0 <= k < |doc| ==>
      GerundWords(doc, nlp)[k] == if doc[k].pos == "VERB" then Inflection(doc[k].text, nlp) else doc[k].text
  {
    if doc != [] {
      GerundWordsAt(doc[..|doc| - 1], nlp);
    }
  }

  /** The word `__convert_pronouns_to_person` emits for one token. */
  function PersonWord(t: Token): string {
    if t.pos == "PRON" && t.text in BASE_PRONOUNS_MAPPING then BASE_PRONOUNS_MAPPING[t.text] else t.text
  }

  /** The words `__convert_pronouns_to_person` emits for a tagged document. */
  function PersonWords(doc: seq<Token>): seq<string> {
    if doc == [] then [] else PersonWords(doc[..|doc| - 1]) + [PersonWord(doc[|doc| - 1])]
  }

  /** What `__convert_pronouns_to_person` returns. */
  function PronounsGeneralised(lyrics: string, nlp: Nlp): string {
    Join(PersonWords(nlp.tag(lyrics)))
  }

  /** `__convert_pronouns_to_person`. */
  method ConvertPronounsToPerson(lyric: string, nlp: Nlp) returns (r: string)
    ensures r == PronounsGeneralised(lyric, nlp)
  {
    var doc := nlp.tag(lyric);
    var newLyrics: seq<string> := [];
    for i := 0 to |doc|
      invariant newLyrics == PersonWords(doc[..i])
    {
      assert doc[..i + 1][..i] == doc[..i];
      if doc[i].pos == "PRON" {
        if doc[i].text in BASE_PRONOUNS_MAPPING {
          newLyrics := newLyrics + [BASE_PRONOUNS_MAPPING[doc[i].text]];
        } else {
          newLyrics := newLyrics + [doc[i].text];
        }
      } else {
        newLyrics := newLyrics + [doc[i].text];
      }
    }
    assert doc[..|doc|] == doc;
    r := Join(newLyrics);
  }

  /** One word per token: a PRON token found in the table becomes its mapped
      value; every other token, including a PRON token missing from the table,
      stays as it is. This speaks of the word list before it is joined: a
      mapped value may hold a space (`they` becomes `those people`), so `Split`
      of the joined text can have more words than the document has tokens. */
  lemma {:induction false} PersonWordsAt(doc: seq<Token>)
    ensures |PersonWords(doc)| == |doc|
    ensures forall k :: 0 <= k < |doc| ==>
      (doc[k].pos == "PRON" && doc[k].text in BASE_PRONOUNS_MAPPING ==> PersonWords(doc)[k] == BASE_PRONOUNS_MAPPING[doc[k].text])
      && (doc[k].pos != "PRON" || doc[k].text !in BASE_PRONOUNS_MAPPING ==> PersonWords(doc)[k] == doc[k].text)
  {
    if doc != [] {
      PersonWordsAt(doc[..|doc| - 1]);
    }
  }

  /** "it" is a pronoun the table leaves alone; "i" and "they" are generalised. */
  lemma PronounExamples()
    ensures PersonWord(Token("it", "PRON")) == "it"
    ensures PersonWord(Token("i", "PRON")) == "person"
    ensures PersonWord(Token("they", "PRON")) == "those people"
    ensures PersonWord(Token("i", "NOUN")) == "i"
  {
  }

  // ---------------------------------------------------------------------
  // clean
  // ---------------------------------------------------------------------

  /** The text `clean` hands to stopword removal: lower, punctuation,
      contractions, fillers, then the optional spelling, verb and pronoun stages. */
  function Normalised(lyrics: string, flags: Flags, nlp: Nlp): string {
    var s4 := FillersRemoved(Decontracted(RemovePunctuation(Lower(lyrics))));
    var s5 := if flags.correctSpelling then SpellingCorrected(s4, nlp) else s4;
    var s6 := if flags.convertVerbs then VerbsAsGerunds(s5, nlp) else s5;
    if flags.replacePronouns then PronounsGeneralised(s6, nlp) else s6
  }

  /** What `clean` returns: the normalised text without stopwords, stripped. */
  function Cleaned(lyrics: string, flags: Flags, nlp: Nlp): string {
    Strip(StopwordsRemoved(Normalised(lyrics, flags, nlp)))
  }

  /** `clean`. */
  method Clean(lyrics: string, flags: Flags, nlp: Nlp) returns (r: string)
    ensures r == Cleaned(lyrics, flags, nlp)
  {
    var s := Lower(lyrics);
    s := RemovePunctuation(s);
    s := Decontracted(s);
    s := RemoveFillerWords(s);
    if flags.correctSpelling {
      s := CorrectSpelling(s, nlp);
    }
    if flags.convertVerbs {
      s := ConvertVerbsToGerund(s, nlp);
    }
    if flags.replacePronouns {
      s := ConvertPronounsToPerson(s, nlp);
    }
    assert s == Normalised(lyrics, flags, nlp);
    s := RemoveStopwords(s);
    r := Strip(s);
  }

  /** Whatever the flags and services, the cleaned text is its own tokens
      joined by single spaces, has no whitespace at either end, and every token
      is longer than one character and not a stopword. */
  lemma CleanedShape(lyrics: string, flags: Flags, nlp: Nlp)
    ensures var r := Cleaned(lyrics, flags, nlp);
      Join(Split(r)) == r
      && (r == [] || (!IsSpace(r[0]) && !IsSpace(r[|r| - 1])))
      && forall w :: w in Split(r) ==> w !in STOPWORDS && |w| > 1
  {
    StrippedStopwordsShape(Normalised(lyrics, flags, nlp));
  }

  lemma StrippedStopwordsShape(s: string)
    ensures var r := Strip(StopwordsRemoved(s));
      Join(Split(r)) == r
      && (r == [] || (!IsSpace(r[0]) && !IsSpace(r[|r| - 1])))
      && forall w :: w in Split(r) ==> w !in STOPWORDS && |w| > 1
  {
    var kept := Filter(Split(s), KeepWord);
    SplitGivesWords(s);
    FilterWords(Split(s), KeepWord);
    StripJoin(kept);
    StripEdges(StopwordsRemoved(s));
    StopwordsRemovedTokens(s);
  }

  /** With every optional stage off, the result does not depend on the services at all. */
  lemma PlainCleanIgnoresNlp(lyrics: string, nlp1: Nlp, nlp2: Nlp)
    ensures Cleaned(lyrics, Flags(false, false, false), nlp1) == Cleaned(lyrics, Flags(false, false, false), nlp2)
    ensures Cleaned(lyrics, Flags(false, false, false), nlp1)
      == Strip(StopwordsRemoved(FillersRemoved(Decontracted(RemovePunctuation(Lower(lyrics))))))
  {
    assert Normalised(lyrics, Flags(false, false, false), nlp1)
      == FillersRemoved(Decontracted(RemovePunctuation(Lower(lyrics))));
  }

  /** Filtering the tokens of a string without punctuation and joining them again
      gives a string without punctuation. */
  lemma FilteredKeepsNoPunctuation(s: string, keep: string -> bool)
    requires forall i :: 0 <= i < |s| ==> NotPunctuation(s[i])
    ensures var r := Join(Filter(Split(s), keep)); forall i :: 0 <= i < |r| ==> NotPunctuation(r[i])
  {
    var ws := Filter(Split(s), keep);
    SplitKeepsChars(s, NotPunctuation);
    forall j, i | 0 <= j < |ws| && 0 <= i < |ws[j]| ensures NotPunctuation(ws[j][i]) {
      FilterMember(Split(s), keep, ws[j]);
      var j' :| 0 <= j' < |Split(s)| && Split(s)[j'] == ws[j];
    }
    JoinKeepsChars(ws, NotPunctuation);
  }

  /** With every optional stage off, no comma, period, `!` or `?` survives cleaning. */
  lemma PlainCleanHasNoPunctuation(lyrics: string, nlp: Nlp)
    ensures Unpunctuated(Cleaned(lyrics, Flags(false, false, false), nlp))
  {
    PlainCleanIgnoresNlp(lyrics, nlp, nlp);
    PlainStagesHaveNoPunctuation(lyrics);
    LaterStagesKeepNoPunctuation(Decontracted(RemovePunctuation(Lower(lyrics))));
  }

  lemma LaterStagesKeepNoPunctuation(s3: string)
    requires forall i :: 0 <= i < |s3| ==> NotPunctuation(s3[i])
    ensures Unpunctuated(Strip(StopwordsRemoved(FillersRemoved(s3))))
  {
    var s4 := FillersRemoved(s3);
    FilteredKeepsNoPunctuation(s3, NotFiller);
    assert s4 == Join(Filter(Split(s3), NotFiller));
    var s8 := StopwordsRemoved(s4);
    FilteredKeepsNoPunctuation(s4, KeepWord);
    assert s8 == Join(Filter(Split(s4), KeepWord));
    StripKeepsChars(s8, NotPunctuation);
  }

  lemma PlainStagesHaveNoPunctuation(lyrics: string)
    ensures Unpunctuated(Decontracted(RemovePunctuation(Lower(lyrics))))
  {
    var s2 := RemovePunctuation(Lower(lyrics));
    RemovePunctuationSpec(Lower(lyrics));
    DecontractedKeepsNoPunctuation(s2);
  }

  /** Punctuation, filler and stopword removal together: doing them twice is doing them once. */
  lemma PunctuationFillerStopwordIdempotent(s: string)
    ensures var g := StopwordsRemoved(FillersRemoved(RemovePunctuation(s)));
      StopwordsRemoved(FillersRemoved(RemovePunctuation(g))) == g
  {
    var p := RemovePunctuation(s);
    RemovePunctuationSpec(s);
    var f := FillersRemoved(p);
    FilteredKeepsNoPunctuation(p, NotFiller);
    assert f == Join(Filter(Split(p), NotFiller));
    var g := StopwordsRemoved(f);
    FilteredKeepsNoPunctuation(f, KeepWord);
    assert g == Join(Filter(Split(f), KeepWord));
    RemovePunctuationOfClean(g);
    // the tokens of g are neither fillers nor stopwords
    StopwordsRemovedTokens(f);
    FillersRemovedTokens(p);
    var gs := Split(g);
    forall i | 0 <= i < |gs| ensures NotFiller(gs[i]) {
      assert gs[i] in Split(g);
    }
    FillersRemovedTokens(g);
    FilterKeepsAll(gs, NotFiller);
    SplitGivesWords(g);
    StopwordsRemovedTokens(f);
    FilterIdempotent(Split(f), KeepWord);
    StopwordsRemovedTokens(FillersRemoved(g));
    SplitJoin(gs);
  }
}
