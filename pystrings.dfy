/**
  The Python string built-ins the core relies on: `str.isspace`, `str.lower`,
  `str.split()` (no separator), `" ".join`, `str.strip()`, `str.replace`,
  `str.zfill`, `str(n)` for a natural number, and `os.path.join` on POSIX,
  together with the sequence helpers (filter, map) used to state what the
  token loops compute.
*/
module PyStrings {

  // ---------------------------------------------------------------------
  // Characters
  // ---------------------------------------------------------------------

  /** The characters for which Python's `str.isspace()` is true. */
  predicate IsSpace(c: char) {
    ('\t' <= c <= '\r') || ('\U{1C}' <= c <= '\U{1F}') || c == ' '
    || c == '\U{85}' || c == '\U{A0}' || c == '\U{1680}'
    || ('\U{2000}' <= c <= '\U{200A}') || c == '\U{2028}' || c == '\U{2029}'
    || c == '\U{202F}' || c == '\U{205F}' || c == '\U{3000}'
  }

  /** A token as `str.split()` produces it: non-empty, no whitespace. */
  predicate IsWord(w: string) {
    |w| > 0 && forall i :: 0 <= i < |w| ==> !IsSpace(w[i])
  }

  predicate AllWords(ws: seq<string>) {
    forall i :: 0 <= i < |ws| ==> IsWord(ws[i])
  }

  function LowerChar(c: char): char {
    if 'A' <= c <= 'Z' then (c as int - 'A' as int + 'a' as int) as char else c
  }

  /** `s.lower()`, restricted to the ASCII letters. */
  function Lower(s: string): (r: string)
    ensures |r| == |s|
    ensures forall i :: 0 <= i < |s| ==> r[i] == LowerChar(s[i])
  {
    if s == [] then [] else [LowerChar(s[0])] + Lower(s[1..])
  }

  // ---------------------------------------------------------------------
  // Splitting on whitespace and joining with one space
  // ---------------------------------------------------------------------

  /** The length of the run of non-whitespace characters that starts `s`. */
  function WordLength(s: string): (k: nat)
    ensures k <= |s|
    ensures forall i :: 0 <= i < k ==> !IsSpace(s[i])
    ensures k < |s| ==> IsSpace(s[k])
  {
    if s == [] || IsSpace(s[0]) then 0 else 1 + WordLength(s[1..])
  }

  /** `s.split()`: the maximal runs of non-whitespace characters, in order. */
  function Split(s: string): seq<string>
    decreases |s|
  {
    if s == [] then []
    else if IsSpace(s[0]) then Split(s[1..])
    else
      var k := WordLength(s);
      [s[..k]] + Split(s[k..])
  }

  /** `" ".join(ws)`. */
  function Join(ws: seq<string>): string {
    if ws == [] then ""
    else if |ws| == 1 then ws[0]
    else ws[0] + " " + Join(ws[1..])
  }

  lemma {:induction false} WordLengthOfWord(w: string, t: string)
    requires IsWord(w)
    requires t == [] || IsSpace(t[0])
    ensures WordLength(w + t) == |w|
    decreases |w|
  {
    if |w| > 1 {
      assert (w + t)[1..] == w[1..] + t;
      WordLengthOfWord(w[1..], t);
    } else {
      assert (w + t)[1..] == t;
    }
  }

  lemma {:induction false} SplitWord(w: string)
    requires IsWord(w)
    ensures Split(w) == [w]
  {
    WordLengthOfWord(w, []);
    assert w + [] == w;
    assert w[|w|..] == [];
  }

  lemma {:induction false} WordLengthBeforeSpace(a: string, b: string)
    requires a != [] && !IsSpace(a[0])
    ensures WordLength(a + " " + b) == WordLength(a)
    decreases |a|
  {
    var s := a + " " + b;
    if |a| > 1 && !IsSpace(a[1]) {
      assert s[1..] == a[1..] + " " + b;
      WordLengthBeforeSpace(a[1..], b);
    } else if |a| > 1 {
      assert s[1..] == a[1..] + " " + b;
      assert s[1] == a[1];
    } else {
      assert s[1..] == " " + b;
    }
  }

  /** Splitting at an inserted space splits each side on its own. */
  lemma {:induction false} SplitAroundSpace(a: string, b: string)
    ensures Split(a + " " + b) == Split(a) + Split(b)
    decreases |a|
  {
    if a == [] {
      SplitLeadingSpace(b);
    } else if IsSpace(a[0]) {
      SplitSpaceFirst(a, b);
      SplitAroundSpace(a[1..], b);
    } else {
      SplitWordFirst(a, b);
      SplitAroundSpace(a[WordLength(a)..], b);
    }
  }

  lemma SplitLeadingSpace(b: string)
    ensures Split(" " + b) == Split(b)
  {
    assert (" " + b)[1..] == b;
  }

  lemma SplitSpaceFirst(a: string, b: string)
    requires a != [] && IsSpace(a[0])
    ensures Split(a + " " + b) == Split(a[1..] + " " + b)
    ensures Split(a) == Split(a[1..])
  {
    var s := a + " " + b;
    assert s[0] == a[0];
    assert s[1..] == a[1..] + " " + b;
  }

  lemma SplitWordFirst(a: string, b: string)
    requires a != [] && !IsSpace(a[0])
    ensures Split(a + " " + b) == [a[..WordLength(a)]] + Split(a[WordLength(a)..] + " " + b)
    ensures Split(a) == [a[..WordLength(a)]] + Split(a[WordLength(a)..])
  {
    var s := a + " " + b;
    var k := WordLength(a);
    WordLengthBeforeSpace(a, b);
    assert s[0] == a[0];
    assert s[..k] == a[..k];
    assert s[k..] == a[k..] + " " + b;
  }

  /** Joining words with single spaces and splitting again gives the words back. */
  lemma {:induction false} SplitJoin(ws: seq<string>)
    requires AllWords(ws)
    ensures Split(Join(ws)) == ws
  {
    if |ws| == 1 {
      SplitWord(ws[0]);
    } else if |ws| > 1 {
      SplitWord(ws[0]);
      SplitAroundSpace(ws[0], Join(ws[1..]));
      SplitJoin(ws[1..]);
    }
  }

  /** Every token of `s.split()` is a word. */
  lemma {:induction false} SplitGivesWords(s: string)
    ensures AllWords(Split(s))
    decreases |s|
  {
    if s != [] {
      if IsSpace(s[0]) {
        SplitGivesWords(s[1..]);
      } else {
        SplitGivesWords(s[WordLength(s)..]);
      }
    }
  }

  /** A predicate on characters holds throughout every token of `s.split()` when it holds throughout `s`. */
  lemma {:induction false} SplitKeepsChars(s: string, p: char -> bool)
    requires forall i :: 0 <= i < |s| ==> p(s[i])
    ensures forall j, i :: 0 <= j < |Split(s)| && 0 <= i < |Split(s)[j]| ==> p(Split(s)[j][i])
    decreases |s|
  {
    if s != [] {
      if IsSpace(s[0]) {
        SplitKeepsChars(s[1..], p);
      } else {
        var k := WordLength(s);
        SplitKeepsChars(s[k..], p);
        assert Split(s) == [s[..k]] + Split(s[k..]);
      }
    }
  }

  /** A predicate on characters that holds of the space holds throughout a joined string when it holds throughout its parts. */
  lemma {:induction false} JoinKeepsChars(ws: seq<string>, p: char -> bool)
    requires p(' ')
    requires forall j, i :: 0 <= j < |ws| && 0 <= i < |ws[j]| ==> p(ws[j][i])
    ensures forall i :: 0 <= i < |Join(ws)| ==> p(Join(ws)[i])
  {
    if |ws| > 1 {
      JoinKeepsChars(ws[1..], p);
      var rest := Join(ws[1..]);
      assert Join(ws) == ws[0] + " " + rest;
      forall i | 0 <= i < |Join(ws)| ensures p(Join(ws)[i]) {
        if i < |ws[0]| {
        } else if i == |ws[0]| {
        } else {
          assert Join(ws)[i] == rest[i - |ws[0]| - 1];
        }
      }
    }
  }

  /** The joined string of words starts and ends with a non-space character. */
  lemma {:induction false} JoinEdges(ws: seq<string>)
    requires AllWords(ws) && ws != []
    ensures Join(ws) != []
    ensures !IsSpace(Join(ws)[0]) && !IsSpace(Join(ws)[|Join(ws)| - 1])
  {
    assert IsWord(ws[0]);
    if |ws| > 1 {
      JoinEdges(ws[1..]);
      var rest := Join(ws[1..]);
      assert Join(ws) == ws[0] + " " + rest;
      assert Join(ws)[|Join(ws)| - 1] == rest[|rest| - 1];
    }
  }

  // ---------------------------------------------------------------------
  // Stripping
  // ---------------------------------------------------------------------

  function TrimStart(s: string): (r: string)
    ensures |r| <= |s| && r == s[|s| - |r|..]
    ensures forall i :: 0 <= i < |s| - |r| ==> IsSpace(s[i])
    ensures r == [] || !IsSpace(r[0])
  {
    if s != [] && IsSpace(s[0]) then TrimStart(s[1..]) else s
  }

  function TrimEnd(s: string): (r: string)
    ensures |r| <= |s| && r == s[..|r|]
    ensures forall i :: |r| <= i < |s| ==> IsSpace(s[i])
    ensures r == [] || !IsSpace(r[|r| - 1])
  {
    if s != [] && IsSpace(s[|s| - 1]) then TrimEnd(s[..|s| - 1]) else s
  }

  /** `s.strip()`: `s` without its leading and trailing whitespace. */
  function Strip(s: string): string {
    TrimEnd(TrimStart(s))
  }

  /** What `Strip` returns has no whitespace at either end. */
  lemma StripEdges(s: string)
    ensures var r := Strip(s); r == [] || (!IsSpace(r[0]) && !IsSpace(r[|r| - 1]))
  {
    var t := TrimStart(s);
    var r := TrimEnd(t);
    if r != [] {
      assert r[0] == t[0];
    }
  }

  /** A predicate on characters that holds throughout `s` holds throughout `Strip(s)`. */
  lemma StripKeepsChars(s: string, p: char -> bool)
    requires forall i :: 0 <= i < |s| ==> p(s[i])
    ensures forall i :: 0 <= i < |Strip(s)| ==> p(Strip(s)[i])
  {
    var t := TrimStart(s);
    var r := TrimEnd(t);
    forall i | 0 <= i < |r| ensures p(r[i]) {
      assert r[i] == t[i];
      assert t[i] == s[|s| - |t| + i];
    }
  }

  /** Stripping a joined string of words changes nothing. */
  lemma StripJoin(ws: seq<string>)
    requires AllWords(ws)
    ensures Strip(Join(ws)) == Join(ws)
  {
    if ws != [] {
      JoinEdges(ws);
    }
  }

  // ---------------------------------------------------------------------
  // Replacing a substring
  // ---------------------------------------------------------------------

  /** `s.startswith(p)`, character by character. */
  predicate StartsWith(s: string, p: string)
    ensures StartsWith(s, p) ==> |p| <= |s|
  {
    p == [] || (s != [] && s[0] == p[0] && StartsWith(s[1..], p[1..]))
  }

  /** `s.startswith(p)` holds exactly when `p` is a prefix of `s`. */
  lemma {:induction false} StartsWithPrefix(s: string, p: string)
    ensures StartsWith(s, p) <==> |p| <= |s| && s[..|p|] == p
    decreases |p|
  {
    if p != [] && s != [] {
      StartsWithPrefix(s[1..], p[1..]);
      if |p| <= |s| {
        assert s[..|p|] == [s[0]] + s[1..][..|p| - 1];
        assert p == [p[0]] + p[1..];
      }
    }
  }

  /** `s.replace(pat, rep)` (and `re.sub` with a pattern that has no special
      characters): every non-overlapping occurrence of `pat`, scanning from the
      left, becomes `rep`. */
  function Replace(s: string, pat: string, rep: string): string
    requires pat != []
    decreases |s|
  {
    if s == [] then []
    else if StartsWith(s, pat) then rep + Replace(s[|pat|..], pat, rep)
    else [s[0]] + Replace(s[1..], pat, rep)
  }

  /** A string that lacks some character of the pattern is left unchanged. */
  lemma {:induction false} ReplaceAbsent(s: string, pat: string, rep: string, c: char)
    requires pat != [] && c in pat && c !in s
    ensures Replace(s, pat, rep) == s
    decreases |s|
  {
    if s != [] {
      StartsWithPrefix(s, pat);
      ReplaceAbsent(s[1..], pat, rep, c);
    }
  }

  /** A string that is exactly the pattern becomes the replacement. */
  lemma ReplaceWhole(pat: string, rep: string)
    requires pat != []
    ensures Replace(pat, pat, rep) == rep
  {
    StartsWithPrefix(pat, pat);
    assert pat[|pat|..] == [];
    assert rep + [] == rep;
  }

  /** A pattern at the very start is replaced, and the scan goes on after it. */
  lemma ReplaceAtStart(pat: string, b: string, rep: string)
    requires pat != []
    ensures Replace(pat + b, pat, rep) == rep + Replace(b, pat, rep)
  {
    StartsWithPrefix(pat + b, pat);
    assert (pat + b)[..|pat|] == pat;
    assert (pat + b)[|pat|..] == b;
  }

  /** A prefix without the pattern's first character is copied unchanged. */
  lemma {:induction false} ReplaceAfterFree(a: string, b: string, pat: string, rep: string)
    requires pat != [] && pat[0] !in a
    ensures Replace(a + b, pat, rep) == a + Replace(b, pat, rep)
    decreases |a|
  {
    if a == [] {
      assert a + b == b;
    } else {
      assert (a + b)[0] == a[0];
      assert (a + b)[1..] == a[1..] + b;
      ReplaceAfterFree(a[1..], b, pat, rep);
      assert a == [a[0]] + a[1..];
    }
  }

  /** One occurrence of the pattern, with no other start of it before and
      none after, is the only one replaced. */
  lemma ReplaceOnce(a: string, pat: string, b: string, rep: string, c: char)
    requires pat != [] && pat[0] !in a && c in pat && c !in b
    ensures Replace(a + pat + b, pat, rep) == a + rep + b
  {
    assert a + pat + b == a + (pat + b);
    ReplaceAfterFree(a, pat + b, pat, rep);
    ReplaceAtStart(pat, b, rep);
    ReplaceAbsent(b, pat, rep, c);
  }

  /** A predicate on characters that holds throughout `s` and `rep` holds throughout the result of the replacement. */
  lemma {:induction false} ReplaceKeepsChars(s: string, pat: string, rep: string, p: char -> bool)
    requires pat != []
    requires forall i :: 0 <= i < |s| ==> p(s[i])
    requires forall i :: 0 <= i < |rep| ==> p(rep[i])
    ensures forall i :: 0 <= i < |Replace(s, pat, rep)| ==> p(Replace(s, pat, rep)[i])
    decreases |s|
  {
    if s != [] {
      var tail := if StartsWith(s, pat) then s[|pat|..] else s[1..];
      var head := if StartsWith(s, pat) then rep else [s[0]];
      ReplaceKeepsChars(tail, pat, rep, p);
      assert Replace(s, pat, rep) == head + Replace(tail, pat, rep);
    }
  }

  /** Replacing one character distributes over concatenation. */
  lemma {:induction false} ReplaceCharConcat(a: string, b: string, c: char, rep: string)
    ensures Replace(a + b, [c], rep) == Replace(a, [c], rep) + Replace(b, [c], rep)
    decreases |a|
  {
    if a != [] {
      assert (a + b)[1..] == a[1..] + b;
      assert (a + b)[0] == a[0];
      assert StartsWith(a + b, [c]) == StartsWith(a, [c]) by {
        StartsWithPrefix(a + b, [c]);
        StartsWithPrefix(a, [c]);
      }
      ReplaceCharConcat(a[1..], b, c, rep);
    } else {
      assert a + b == b;
    }
  }

  /** Replacing one character, applied to a single character. */
  lemma ReplaceCharSingle(x: char, c: char, rep: string)
    ensures Replace([x], [c], rep) == if x == c then rep else [x]
  {
    StartsWithPrefix([x], [c]);
    assert [x][1..] == [];
  }

  // ---------------------------------------------------------------------
  // Filtering and mapping token lists (built from the right, as the loops append)
  // ---------------------------------------------------------------------

  function Filter<T>(xs: seq<T>, keep: T -> bool): seq<T> {
    if xs == [] then []
    else Filter(xs[..|xs| - 1], keep) + (if keep(xs[|xs| - 1]) then [xs[|xs| - 1]] else [])
  }

  /** Filtering a concatenation filters each part, in order. */
  lemma {:induction false} FilterConcat<T>(a: seq<T>, b: seq<T>, keep: T -> bool)
    ensures Filter(a + b, keep) == Filter(a, keep) + Filter(b, keep)
    decreases |b|
  {
    if b == [] {
      assert a + b == a;
    } else {
      var b' := b[..|b| - 1];
      assert (a + b)[..|a + b| - 1] == a + b';
      assert (a + b)[|a + b| - 1] == b[|b| - 1];
      FilterConcat(a, b', keep);
    }
  }

  /** An element is in the filtered list exactly when it is in the list and is kept. */
  lemma {:induction false} FilterMember<T>(xs: seq<T>, keep: T -> bool, x: T)
    ensures x in Filter(xs, keep) <==> x in xs && keep(x)
  {
    if xs != [] {
      var init := xs[..|xs| - 1];
      FilterMember(init, keep, x);
      assert xs == init + [xs[|xs| - 1]];
    }
  }

  /** Every element of the filtered list is kept. */
  lemma FilterAllKept<T>(xs: seq<T>, keep: T -> bool)
    ensures forall i :: 0 <= i < |Filter(xs, keep)| ==> keep(Filter(xs, keep)[i])
  {
    forall i | 0 <= i < |Filter(xs, keep)| ensures keep(Filter(xs, keep)[i]) {
      FilterMember(xs, keep, Filter(xs, keep)[i]);
    }
  }

  /** Filtering a list whose every element is kept changes nothing. */
  lemma {:induction false} FilterKeepsAll<T>(xs: seq<T>, keep: T -> bool)
    requires forall i :: 0 <= i < |xs| ==> keep(xs[i])
    ensures Filter(xs, keep) == xs
  {
    if xs != [] {
      FilterKeepsAll(xs[..|xs| - 1], keep);
    }
  }

  /** Filtering twice is filtering once. */
  lemma FilterIdempotent<T>(xs: seq<T>, keep: T -> bool)
    ensures Filter(Filter(xs, keep), keep) == Filter(xs, keep)
  {
    FilterAllKept(xs, keep);
    FilterKeepsAll(Filter(xs, keep), keep);
  }

  /** Filtering keeps words words. */
  lemma FilterWords(ws: seq<string>, keep: string -> bool)
    requires AllWords(ws)
    ensures AllWords(Filter(ws, keep))
  {
    forall i | 0 <= i < |Filter(ws, keep)| ensures IsWord(Filter(ws, keep)[i]) {
      FilterMember(ws, keep, Filter(ws, keep)[i]);
    }
  }

  function MapSeq<A, B>(xs: seq<A>, f: A -> B): seq<B> {
    if xs == [] then [] else MapSeq(xs[..|xs| - 1], f) + [f(xs[|xs| - 1])]
  }

  /** Mapping keeps the length and maps each position. */
  lemma {:induction false} MapSeqAt<A, B>(xs: seq<A>, f: A -> B)
    ensures |MapSeq(xs, f)| == |xs|
    ensures forall i :: 0 <= i < |xs| ==> MapSeq(xs, f)[i] == f(xs[i])
  {
    if xs != [] {
      MapSeqAt(xs[..|xs| - 1], f);
    }
  }

  // ---------------------------------------------------------------------
  // Decimal numerals, zfill and os.path.join
  // ---------------------------------------------------------------------

  predicate IsDigit(c: char) { '0' <= c <= '9' }

  function DigitChar(d: nat): char
    requires d < 10
  {
    ('0' as int + d) as char
  }

  /** `str(n)` for a natural number. */
  function DecimalString(n: nat): (s: string)
    ensures |s| > 0
    ensures forall i :: 0 <= i < |s| ==> IsDigit(s[i])
  {
    if n < 10 then [DigitChar(n)] else DecimalString(n / 10) + [DigitChar(n % 10)]
  }

  /** The number a string of digits denotes, leading zeros allowed. */
  function DecimalValue(s: string): nat
    requires forall i :: 0 <= i < |s| ==> IsDigit(s[i])
  {
    if s == [] then 0
    else 10 * DecimalValue(s[..|s| - 1]) + DigitValue(s[|s| - 1])
  }

  function DigitValue(c: char): (d: nat)
    requires IsDigit(c)
    ensures d < 10
  {
    c as int - '0' as int
  }

  function Zeros(k: nat): (z: string)
    ensures |z| == k && forall i :: 0 <= i < k ==> z[i] == '0'
  {
    if k == 0 then "" else "0" + Zeros(k - 1)
  }

  /** `s.zfill(width)` for a string without a sign: left-padded with '0' up to `width`. */
  function ZFill(s: string, width: nat): string {
    if |s| >= width then s else Zeros(width - |s|) + s
  }

  /** `os.path.join(a, b)` with two arguments (POSIX). */
  function PathJoin(a: string, b: string): string {
    if b != [] && b[0] == '/' then b
    else if a == [] || a[|a| - 1] == '/' then a + b
    else a + "/" + b
  }

  /** What `PathJoin(a, b)` puts in front of a relative `b`; it depends on `a` alone. */
  function PathPrefix(a: string): string {
    if a == [] || a[|a| - 1] == '/' then a else a + "/"
  }

  lemma PathJoinRelative(a: string, b: string)
    requires b == [] || b[0] != '/'
    ensures PathJoin(a, b) == PathPrefix(a) + b
  {
  }

  /** Reading back `str(n)` gives `n`. */
  lemma {:induction false} DecimalRoundTrip(n: nat)
    ensures DecimalValue(DecimalString(n)) == n
  {
    var s := DecimalString(n);
    if n >= 10 {
      assert s[..|s| - 1] == DecimalString(n / 10);
      DecimalRoundTrip(n / 10);
    }
  }

  /** Numbers below `10^k` have at most `k` digits. */
  lemma {:induction false} DecimalStringLength(n: nat, k: nat)
    requires k > 0 && n < Pow10(k)
    ensures |DecimalString(n)| <= k
  {
    if n >= 10 {
      assert k > 1;
      DecimalStringLength(n / 10, k - 1);
    }
  }

  function Pow10(k: nat): (p: nat)
    ensures p > 0
  {
    if k == 0 then 1 else 10 * Pow10(k - 1)
  }

  lemma {:induction false} ZerosValue(k: nat)
    ensures DecimalValue(Zeros(k)) == 0
  {
    if k > 0 {
      assert Zeros(k)[..k - 1] == Zeros(k - 1);
      ZerosValue(k - 1);
    }
  }

  /** Leading zeros do not change the value of a numeral. */
  lemma {:induction false} LeadingZerosValue(k: nat, s: string)
    requires forall i :: 0 <= i < |s| ==> IsDigit(s[i])
    ensures DecimalValue(Zeros(k) + s) == DecimalValue(s)
    decreases |s|
  {
    if s == [] {
      assert Zeros(k) + s == Zeros(k);
      ZerosValue(k);
    } else {
      var t := Zeros(k) + s;
      assert t[..|t| - 1] == Zeros(k) + s[..|s| - 1];
      LeadingZerosValue(k, s[..|s| - 1]);
    }
  }

  /** `s.zfill(width)` of a numeral denotes the same number. */
  lemma ZFillValue(s: string, width: nat)
    requires forall i :: 0 <= i < |s| ==> IsDigit(s[i])
    ensures forall i :: 0 <= i < |ZFill(s, width)| ==> IsDigit(ZFill(s, width)[i])
    ensures DecimalValue(ZFill(s, width)) == DecimalValue(s)
    ensures |ZFill(s, width)| == if |s| >= width then |s| else width
  {
    if |s| < width {
      LeadingZerosValue(width - |s|, s);
    }
  }

  /** Two numerals of the same length and value are the same string. */
  lemma {:induction false} DecimalValueInjective(a: string, b: string)
    requires forall i :: 0 <= i < |a| ==> IsDigit(a[i])
    requires forall i :: 0 <= i < |b| ==> IsDigit(b[i])
    requires |a| == |b| && DecimalValue(a) == DecimalValue(b)
    ensures a == b
  {
    if a != [] {
      var n := |a| - 1;
      DecimalValueInjective(a[..n], b[..n]);
      assert a == a[..n] + [a[n]] && b == b[..n] + [b[n]];
    }
  }

  /** Python's `<` on strings: lexicographic order by code point, a proper prefix first. */
  predicate LexLess(a: string, b: string) {
    if a == [] then b != []
    else if b == [] then false
    else if a[0] != b[0] then a[0] < b[0]
    else LexLess(a[1..], b[1..])
  }

  lemma {:induction false} LexLessSharedPrefix(p: string, a: string, b: string)
    requires LexLess(a, b)
    ensures LexLess(p + a, p + b)
    decreases |p|
  {
    if p == [] {
      assert p + a == a && p + b == b;
    } else {
      assert (p + a)[0] == (p + b)[0];
      assert (p + a)[1..] == p[1..] + a;
      assert (p + b)[1..] == p[1..] + b;
      LexLessSharedPrefix(p[1..], a, b);
    }
  }

  lemma {:induction false} LexLessAppend(a: string, b: string, s: string, t: string)
    requires |a| == |b| && LexLess(a, b)
    ensures LexLess(a + s, b + t)
    decreases |a|
  {
    if a[0] == b[0] {
      assert (a + s)[1..] == a[1..] + s;
      assert (b + t)[1..] == b[1..] + t;
      LexLessAppend(a[1..], b[1..], s, t);
    }
  }

  lemma LexLessLastDigit(p: string, x: char, y: char)
    requires x < y
    ensures LexLess(p + [x], p + [y])
  {
    LexLessSharedPrefix(p, [x], [y]);
  }

  /** On numerals of equal length, string order is numeric order. */
  lemma {:induction false} DecimalOrder(a: string, b: string)
    requires forall i :: 0 <= i < |a| ==> IsDigit(a[i])
    requires forall i :: 0 <= i < |b| ==> IsDigit(b[i])
    requires |a| == |b| && DecimalValue(a) < DecimalValue(b)
    ensures LexLess(a, b)
  {
    var n := |a| - 1;
    var a', b' := a[..n], b[..n];
    assert a == a' + [a[n]] && b == b' + [b[n]];
    if DecimalValue(a') < DecimalValue(b') {
      DecimalOrder(a', b');
      LexLessAppend(a', b', [a[n]], [b[n]]);
    } else {
      assert DecimalValue(a') == DecimalValue(b');
      DecimalValueInjective(a', b');
      LexLessLastDigit(a', a[n], b[n]);
    }
  }
}
