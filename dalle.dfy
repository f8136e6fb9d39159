/**
  The prompt that `DALLEGenerator.generate_image` sends for a lyric: the art
  style is looked up in a table, with a default, and the style phrase and the
  lyric fill the two fields of a fixed template. The request to the image
  service itself is not part of this model.
*/
module Dalle {
  import opened Wrappers
  import opened PyStrings

  /** The text of the template before, between and after its two `{}` fields. */
  const TEMPLATE_HEAD := "an "
  const TEMPLATE_MIDDLE := " oil painting of a scene about "
  const TEMPLATE_TAIL := TAIL_LIGHTING + TAIL_RULE + TAIL_DETAIL + TAIL_TRENDING + TAIL_FREE

  /** The pieces of the template's tail, as they read left to right. */
  const TAIL_LIGHTING := ", cinematic lighting, cinematic composition"
  const TAIL_RULE := ", rule of thirds, vivid, HDR, UHD, 4K"
  const TAIL_DETAIL := ", highly detailed, professional"
  const TAIL_TRENDING := ", trending on artstation"
  const TAIL_FREE := ", no text, royalty free"

  /** `PROMPT_TEMPLATE`. */
  const PROMPT_TEMPLATE := TEMPLATE_HEAD + "{}" + TEMPLATE_MIDDLE + "{}" + TEMPLATE_TAIL

  /** `STYLE_MAPPING`: art style name to the phrase put in the prompt. */
  const STYLE_MAPPING: map<string, string> := map[
    "impressionist" := "impressionist",
    "abstract" := "abstract",
    "photorealistic" := "photorealistic",
    "expressionist" := "expressionist",
    "surrealist" := "surrealist",
    "cubist" := "cubist",
    "popart" := "popart",
    "anime" := "makoto shinkai art style",
    "scifi" := "scifi scene"
  ]

  /** The phrase used for a style the table does not know. */
  const DEFAULT_STYLE := "impressionist"

  /** `STYLE_MAPPING.get(style, "impressionist")`. */
  function ResolveStyle(style: string): string {
    if style in STYLE_MAPPING then STYLE_MAPPING[style] else DEFAULT_STYLE
  }

  /** `template.format(*args)` for a template whose only braces are `{}`
      fields: the fields take the arguments in order, surplus arguments are
      ignored, and too few raise an `IndexError`. */
  function Format(template: string, args: seq<string>): (r: Result<string>)
    decreases |template|
  {
    if template == [] then Success([])
    else if StartsWith(template, "{}") then
      if args == [] then Failure(IndexError)
      else
        var rest := Format(template[2..], args[1..]);
        if rest.Success? then Success(args[0] + rest.value) else rest
    else
      var rest := Format(template[1..], args);
      if rest.Success? then Success([template[0]] + rest.value) else rest
  }

  /** The number of `{}` fields, counted as `Format` reads them. */
  function FieldCount(template: string): nat
    decreases |template|
  {
    if template == [] then 0
    else if StartsWith(template, "{}") then 1 + FieldCount(template[2..])
    else FieldCount(template[1..])
  }

  /** The prompt built for a lyric and a style name. */
  function ImagePrompt(lyric: string, style: string): Result<string> {
    Format(PROMPT_TEMPLATE, [ResolveStyle(style), lyric])
  }

  /** Formatting succeeds exactly when there is an argument for every field. */
  lemma {:induction false} FormatSucceeds(template: string, args: seq<string>)
    requires OnlyEmptyFields(template)
    ensures Format(template, args).Success? <==> FieldCount(template) <= |args|
    decreases |template|
  {
    if template != [] {
      if StartsWith(template, "{}") {
        if args != [] {
          FormatSucceeds(template[2..], args[1..]);
        }
      } else {
        FormatSucceeds(template[1..], args);
      }
    }
  }

  /** `p` has no brace, so it holds no field and nothing `format` could reject. */
  predicate NoBrace(p: string) {
    '{' !in p && '}' !in p
  }

  /** Every brace of `t` belongs to a `{}` field, scanning as `Format` does:
      the templates on which `Format` agrees with `str.format`, which raises
      `ValueError` on any other brace. */
  predicate OnlyEmptyFields(t: string)
    decreases |t|
  {
    if t == [] then true
    else if StartsWith(t, "{}") then OnlyEmptyFields(t[2..])
    else t[0] != '{' && t[0] != '}' && OnlyEmptyFields(t[1..])
  }

  /** Text without an opening brace is copied through unchanged. */
  lemma {:induction false} FormatPlain(p: string, rest: string, args: seq<string>, v: string)
    requires NoBrace(p) && Format(rest, args) == Success(v)
    ensures Format(p + rest, args) == Success(p + v)
    decreases |p|
  {
    if p == [] {
      assert p + rest == rest;
      assert p + v == v;
    } else {
      var t := p + rest;
      assert t[0] == p[0] && p[0] in p;
      assert NoBrace(p[1..]) by {
        forall i | 0 <= i < |p| - 1 ensures p[1..][i] in p { assert p[1..][i] == p[i + 1]; }
      }
      assert !StartsWith(t, "{}");
      assert t[1..] == p[1..] + rest;
      FormatPlain(p[1..], rest, args, v);
      assert [p[0]] + (p[1..] + v) == p + v;
    }
  }

  /** A field takes the first argument. */
  lemma FormatField(rest: string, a: string, args: seq<string>, v: string)
    requires Format(rest, args) == Success(v)
    ensures Format("{}" + rest, [a] + args) == Success(a + v)
  {
    var t := "{}" + rest;
    StartsWithPrefix(t, "{}");
    assert t[..2] == "{}";
    assert t[2..] == rest;
    assert ([a] + args)[1..] == args;
  }

  /** A template with two fields and no other braces, given two arguments. */
  lemma FormatTwoFields(head: string, middle: string, tail: string, a: string, b: string)
    requires NoBrace(head) && NoBrace(middle) && NoBrace(tail)
    ensures Format(head + ("{}" + (middle + ("{}" + tail))), [a, b]) == Success(head + (a + (middle + (b + tail))))
  {
    FormatPlain(tail, [], [], []);
    assert tail + [] == tail;
    FormatField(tail, b, [], tail);
    assert [b] + [] == [b];
    FormatPlain(middle, "{}" + tail, [b], b + tail);
    FormatField(middle + ("{}" + tail), a, [b], middle + (b + tail));
    assert [a] + [b] == [a, b];
    FormatPlain(head, "{}" + (middle + ("{}" + tail)), [a, b], a + (middle + (b + tail)));
  }

  /** Five pieces concatenated from the left or from the right give the same string. */
  lemma Nesting(x1: string, x2: string, x3: string, x4: string, x5: string)
    ensures x1 + x2 + x3 + x4 + x5 == x1 + (x2 + (x3 + (x4 + x5)))
  {
  }

  /** The template's text around its two fields holds no brace. */
  lemma TemplateTextHasNoFields()
    ensures NoBrace(TEMPLATE_HEAD) && NoBrace(TEMPLATE_MIDDLE) && NoBrace(TEMPLATE_TAIL)
  {
    HeadAndMiddleHaveNoBrace();
    LightingHasNoBrace();
    RuleHasNoBrace();
    DetailHasNoBrace();
    TrendingAndFreeHaveNoBrace();
  }

  lemma HeadAndMiddleHaveNoBrace()
    ensures NoBrace(TEMPLATE_HEAD) && NoBrace(TEMPLATE_MIDDLE)
  {
  }

  lemma LightingHasNoBrace()
    ensures NoBrace(TAIL_LIGHTING)
  {
  }

  lemma RuleHasNoBrace()
    ensures NoBrace(TAIL_RULE)
  {
  }

  lemma DetailHasNoBrace()
    ensures NoBrace(TAIL_DETAIL)
  {
  }

  lemma TrendingAndFreeHaveNoBrace()
    ensures NoBrace(TAIL_TRENDING) && NoBrace(TAIL_FREE)
  {
  }

  /** Text without braces in front of a well-formed template keeps it well formed. */
  lemma {:induction false} OnlyEmptyFieldsPlain(p: string, rest: string)
    requires NoBrace(p) && OnlyEmptyFields(rest)
    ensures OnlyEmptyFields(p + rest)
    decreases |p|
  {
    if p == [] {
      assert p + rest == rest;
    } else {
      var t := p + rest;
      assert t[0] == p[0] && p[0] in p;
      assert NoBrace(p[1..]) by {
        forall i | 0 <= i < |p| - 1 ensures p[1..][i] in p { assert p[1..][i] == p[i + 1]; }
      }
      assert !StartsWith(t, "{}");
      assert t[1..] == p[1..] + rest;
      OnlyEmptyFieldsPlain(p[1..], rest);
    }
  }

  /** A field in front of a well-formed template keeps it well formed. */
  lemma OnlyEmptyFieldsField(rest: string)
    requires OnlyEmptyFields(rest)
    ensures OnlyEmptyFields("{}" + rest)
  {
    var t := "{}" + rest;
    StartsWithPrefix(t, "{}");
    assert t[..2] == "{}";
    assert t[2..] == rest;
  }

  /** Every brace of `PROMPT_TEMPLATE` is one of its two `{}` fields. */
  lemma TemplateOnlyEmptyFields()
    ensures OnlyEmptyFields(PROMPT_TEMPLATE)
  {
    var head, middle, tail := TEMPLATE_HEAD, TEMPLATE_MIDDLE, TEMPLATE_TAIL;
    TemplateTextHasNoFields();
    assert tail + [] == tail;
    OnlyEmptyFieldsPlain(tail, []);
    OnlyEmptyFieldsField(tail);
    OnlyEmptyFieldsPlain(middle, "{}" + tail);
    OnlyEmptyFieldsField(middle + ("{}" + tail));
    OnlyEmptyFieldsPlain(head, "{}" + (middle + ("{}" + tail)));
    Nesting(head, "{}", middle, "{}", tail);
  }

  /** The prompt is the template with the style phrase in the first field and
      the lyric in the second. */
  lemma ImagePromptShape(lyric: string, style: string)
    ensures ImagePrompt(lyric, style) ==
      Success(TEMPLATE_HEAD + ResolveStyle(style) + TEMPLATE_MIDDLE + lyric + TEMPLATE_TAIL)
  {
    var head, middle, tail := TEMPLATE_HEAD, TEMPLATE_MIDDLE, TEMPLATE_TAIL;
    TemplateTextHasNoFields();
    FormatTwoFields(head, middle, tail, ResolveStyle(style), lyric);
    Nesting(head, "{}", middle, "{}", tail);
    Nesting(head, ResolveStyle(style), middle, lyric, tail);
  }

  /** A known style gives its table entry and any other name the default. */
  lemma ResolveStyleCases(style: string)
    ensures style in STYLE_MAPPING ==> ResolveStyle(style) == STYLE_MAPPING[style]
    ensures style !in STYLE_MAPPING ==> ResolveStyle(style) == "impressionist"
  {
  }

  /** Whatever the style name, the phrase is one the table maps to. */
  lemma ResolveStyleInTable(style: string)
    ensures ResolveStyle(style) in STYLE_MAPPING.Values
  {
    assert STYLE_MAPPING["impressionist"] == DEFAULT_STYLE;
  }

  /** A known style gives its own phrase; for example `anime`. */
  lemma AnimeStyle()
    ensures ResolveStyle("anime") == "makoto shinkai art style"
  {
  }

  /** The lookup is case-sensitive: `Anime` is not a key and falls back to the
      default, while its lower-case form finds the anime phrase. */
  lemma ResolveStyleCaseSensitive()
    ensures ResolveStyle("Anime") == DEFAULT_STYLE
    ensures ResolveStyle(Lower("Anime")) == "makoto shinkai art style"
  {
    assert "Anime" !in STYLE_MAPPING;
    assert Lower("Anime") == "anime";
  }

  /** No upper-case ASCII letter in `s`. */
  predicate IsLowerCase(s: string) {
    forall i :: 0 <= i < |s| ==> !('A' <= s[i] <= 'Z')
  }

  /** Every key of the table is already lower case, so lowering a key finds it:
      lowering the style name first loses no entry of the table. */
  lemma KeysAreLowerCase(style: string)
    requires style in STYLE_MAPPING
    ensures Lower(style) == style
    ensures ResolveStyle(Lower(style)) == STYLE_MAPPING[style]
  {
    assert IsLowerCase(style) by { KeysHaveNoCapitals(); }
  }

  lemma KeysHaveNoCapitals()
    ensures forall k | k in STYLE_MAPPING :: IsLowerCase(k)
  {
  }
}
