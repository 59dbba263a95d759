/**
 Matching of selector texts: `normalize`, `is_zero_width_or_bidi` and
 `text_matches` of cli/src/selector.rs.  Lower-casing is a parameter.
 */
module Selector {
  import opened Basics
  import opened Text

  predicate IsInvisible(c: char) {
    '\U{200B}' <= c <= '\U{200F}' || '\U{202A}' <= c <= '\U{202E}' || c == '\U{2060}' || c == '\U{FEFF}'
  }

  const APOSTROPHES := ['\U{2018}', '\U{2019}', '\U{02BC}', '\U{2032}', '\U{201B}']
  const QUOTES := ['\U{201C}', '\U{201D}', '\U{2033}', '\U{201F}']

  function Fold(c: char): (s: string)
    ensures s != ""
  {
    if c in APOSTROPHES then "'" else if c in QUOTES then "\"" else if c == '\U{2026}' then "..." else [c]
  }

  /** What has been written and whether a space is due before the next character. */
  datatype Progress = Progress(out: string, pending: bool)

  function Scan(s: string): Progress {
    if s == "" then Progress("", false)
    else
      var before, c := Scan(s[..|s| - 1]), s[|s| - 1];
      if IsInvisible(c) then before
      else if IsWhitespace(c) then Progress(before.out, before.out != "")
      else Progress(before.out + (if before.pending then " " else "") + Fold(c), false)
  }

  function Normalized(s: string): string {
    Scan(s).out
  }

  method Normalize(s: string) returns (out: string)
    ensures out == Normalized(s)
  {
    hide IsInvisible, IsWhitespace, Fold;
    out := "";
    var pendingSpace := false;
    for i := 0 to |s|
      invariant Progress(out, pendingSpace) == Scan(s[..i])
    {
      var c := s[i];
      assert s[..i + 1][..i] == s[..i] && s[..i + 1][i] == c;
      if IsInvisible(c) {
      } else if IsWhitespace(c) {
        pendingSpace := out != "";
      } else {
        if pendingSpace {
          out := out + " ";
          pendingSpace := false;
        }
        out := out + Fold(c);
      }
    }
    assert s[..|s|] == s;
  }

  function TextMatches(lower: string -> string, actual: Option<string>, expected: Option<string>, exact: bool): bool {
    if expected.None? then true
    else if actual.None? then false
    else
      var a, e := lower(Normalized(actual.value)), lower(Normalized(expected.value));
      if exact then a == e else Contains(a, e)
  }

  // ---- the words of a text --------------------------------------------------------

  /** The runs between whitespace, folded, some of them empty; invisible characters count for nothing. */
  function Runs(s: string): (runs: seq<string>)
    ensures runs != []
  {
    if s == "" then [""]
    else
      var before, c := Runs(s[..|s| - 1]), s[|s| - 1];
      if IsInvisible(c) then before
      else if IsWhitespace(c) then before + [""]
      else before[..|before| - 1] + [before[|before| - 1] + Fold(c)]
  }

  function NonEmpty(runs: seq<string>): (r: seq<string>)
    ensures forall x :: 0 <= x < |r| ==> r[x] != ""
  {
    if runs == [] then []
    else
      var n := |runs| - 1;
      NonEmpty(runs[..n]) + (if runs[n] == "" then [] else [runs[n]])
  }

  function Words(s: string): seq<string> {
    NonEmpty(Runs(s))
  }

  lemma NonEmptyLast(runs: seq<string>, last: string)
    ensures NonEmpty(runs + [last]) == NonEmpty(runs) + (if last == "" then [] else [last])
  {
    assert (runs + [last])[..|runs|] == runs;
  }

  lemma {:induction false} JoinLast(words: seq<string>, last: string)
    ensures Join(words + [last], ' ') == if words == [] then last else Join(words, ' ') + " " + last
  {
    if |words| >= 1 {
      assert (words + [last])[1..] == words[1..] + [last];
      JoinLast(words[1..], last);
    }
  }

  lemma JoinIsEmpty(words: seq<string>)
    requires forall x :: 0 <= x < |words| ==> words[x] != ""
    ensures Join(words, ' ') == "" <==> words == []
  {
  }

  /** The text is its words with one space between them. */
  lemma {:induction false} NormalizedIsWords(s: string)
    ensures Normalized(s) == Join(Words(s), ' ')
    ensures Scan(s).pending <==> Words(s) != [] && Runs(s)[|Runs(s)| - 1] == ""
  {
    hide IsInvisible, IsWhitespace, Fold, Join, NonEmpty;
    if s == "" {
      NoWords();
    } else {
      var rest, c := s[..|s| - 1], s[|s| - 1];
      NormalizedIsWords(rest);
      WordsStep(rest, c);
      JoinIsEmpty(Words(rest));
    }
  }

  lemma NoWords()
    ensures Words("") == [] && Join([], ' ') == ""
  {
    assert NonEmpty([""]) == NonEmpty([]) by {
      NonEmptyLast([], "");
      assert [] + [""] == [""];
    }
  }

  /** How one more character changes the words. */
  lemma WordsStep(s: string, c: char)
    ensures IsInvisible(c) || IsWhitespace(c) ==> Words(s + [c]) == Words(s)
    ensures !IsInvisible(c) && !IsWhitespace(c) ==>
      var gap := if Runs(s)[|Runs(s)| - 1] == "" && Words(s) != [] then " " else "";
      Join(Words(s + [c]), ' ') == Join(Words(s), ' ') + gap + Fold(c)
  {
    hide IsInvisible, IsWhitespace, Fold, Join, NonEmpty;
    var runs := Runs(s);
    assert (s + [c])[..|s|] == s && (s + [c])[|s|] == c;
    NonEmptyLast(runs, "");
    if !IsInvisible(c) && !IsWhitespace(c) {
      var front, last := runs[..|runs| - 1], runs[|runs| - 1];
      assert Runs(s + [c]) == front + [last + Fold(c)];
      assert runs == front + [last];
      hide Runs;
      LongerRun(front, last, Fold(c));
    }
  }

  lemma LongerRun(front: seq<string>, last: string, more: string)
    requires more != ""
    ensures
      var words := NonEmpty(front + [last]);
      var gap := if last == "" && words != [] then " " else "";
      Join(NonEmpty(front + [last + more]), ' ') == Join(words, ' ') + gap + more
  {
    hide Join, NonEmpty;
    var words := NonEmpty(front);
    NonEmptyLast(front, last);
    NonEmptyLast(front, last + more);
    JoinLast(words, last + more);
    if last == "" {
      assert last + more == more && words + [] == words;
      JoinNothing();
    } else {
      JoinLast(words, last);
    }
  }

  lemma JoinNothing()
    ensures Join([], ' ') == ""
  {
  }

  // ---- canonical form -----------------------------------------------------------------

  /** A character that stands for itself. */
  predicate IsPlain(c: char) {
    !IsInvisible(c) && !IsWhitespace(c) && Fold(c) == [c]
  }

  /** Plain characters and single spaces, none at an edge. */
  predicate IsCanonical(s: string) {
    && (forall i :: 0 <= i < |s| ==> IsPlain(s[i]) || (s[i] == ' ' && 0 < i < |s| - 1))
    && (forall i :: 0 <= i < |s| - 1 ==> !(s[i] == ' ' && s[i + 1] == ' '))
  }

  lemma FoldIsPlain(c: char, i: nat)
    requires !IsInvisible(c) && !IsWhitespace(c) && i < |Fold(c)|
    ensures IsPlain(Fold(c)[i]) && Fold(c)[i] != ' '
  {
  }

  lemma {:induction false} NormalizedIsCanonical(s: string)
    ensures IsCanonical(Normalized(s))
    ensures Scan(s).pending ==> Scan(s).out != ""
  {
    hide IsInvisible, IsWhitespace, Fold, IsPlain;
    if s != "" {
      var rest, c := s[..|s| - 1], s[|s| - 1];
      NormalizedIsCanonical(rest);
      if !IsInvisible(c) && !IsWhitespace(c) {
        CanonicalGrows(Scan(rest).out, Scan(rest).pending, c);
      }
    }
  }

  lemma CanonicalGrows(out: string, pending: bool, c: char)
    requires IsCanonical(out) && (pending ==> out != "")
    requires !IsInvisible(c) && !IsWhitespace(c)
    ensures IsCanonical(out + (if pending then " " else "") + Fold(c))
  {
    hide IsInvisible, IsWhitespace, Fold, IsPlain;
    var gap := if pending then " " else "";
    var r := out + gap + Fold(c);
    forall i | 0 <= i < |r|
      ensures IsPlain(r[i]) || (r[i] == ' ' && 0 < i < |r| - 1)
      ensures i >= |out| + |gap| ==> r[i] != ' '
    {
      if i >= |out| + |gap| {
        FoldIsPlain(c, i - |out| - |gap|);
      }
    }
    if out != "" {
      EdgeIsNoSpace(out);
    }
  }

  lemma EdgeIsNoSpace(s: string)
    requires IsCanonical(s) && s != ""
    ensures s[|s| - 1] != ' '
  {
    hide Fold, IsInvisible;
    assert IsWhitespace(' ');
  }

  /** Canonical texts are left alone. */
  lemma {:induction false} CanonicalIsFixed(s: string, n: nat)
    requires IsCanonical(s) && n <= |s|
    ensures
      var k := if n > 0 && s[n - 1] == ' ' then n - 1 else n;
      Scan(s[..n]) == Progress(s[..k], k < n)
    decreases n
  {
    hide Fold;
    if n > 0 {
      CanonicalIsFixed(s, n - 1);
      var c := s[n - 1];
      assert s[..n][..n - 1] == s[..n - 1];
      assert IsWhitespace(' ') && !IsInvisible(' ');
      if c == ' ' {
        assert n - 1 > 0 && s[n - 2] != ' ';
      } else {
        assert IsPlain(c);
        assert s[..n] == s[..n - 1] + [c];
        if n > 1 && s[n - 2] == ' ' {
          assert s[..n - 1] == s[..n - 2] + " ";
        }
      }
    }
  }

  /** A text is its own normal form exactly when it is canonical. */
  lemma FixedIffCanonical(s: string)
    ensures Normalized(s) == s <==> IsCanonical(s)
  {
    hide IsCanonical, Scan;
    NormalizedIsCanonical(s);
    if IsCanonical(s) {
      CanonicalIsFixed(s, |s|);
      assert s[..|s|] == s;
      if s != "" {
        EdgeIsNoSpace(s);
      }
    }
  }

  lemma NormalizedTwice(s: string)
    ensures Normalized(Normalized(s)) == Normalized(s)
  {
    hide Normalized;
    NormalizedIsCanonical(s);
    FixedIffCanonical(Normalized(s));
  }

  // ---- what makes no difference ----------------------------------------------------------

  lemma {:induction false} ScanContinues(a: string, b: string, rest: string)
    requires Scan(a) == Scan(b)
    ensures Scan(a + rest) == Scan(b + rest)
  {
    hide IsInvisible, IsWhitespace, Fold;
    if rest == "" {
      assert a + rest == a && b + rest == b;
    } else {
      var front := rest[..|rest| - 1];
      ScanContinues(a, b, front);
      assert (a + rest)[..|a + rest| - 1] == a + front && (b + rest)[..|b + rest| - 1] == b + front;
    }
  }

  predicate AllInvisible(s: string) {
    forall i :: 0 <= i < |s| ==> IsInvisible(s[i])
  }

  predicate AllWhitespace(s: string) {
    forall i :: 0 <= i < |s| ==> IsWhitespace(s[i])
  }

  lemma {:induction false} ScanSkipsInvisible(a: string, x: string)
    requires AllInvisible(x)
    ensures Scan(a + x) == Scan(a)
  {
    hide IsInvisible, IsWhitespace, Fold;
    if x == "" {
      assert a + x == a;
    } else {
      assert (a + x)[..|a + x| - 1] == a + x[..|x| - 1];
      ScanSkipsInvisible(a, x[..|x| - 1]);
    }
  }

  lemma {:induction false} ScanOfRun(a: string, w: string)
    requires AllWhitespace(w) && w != ""
    ensures Scan(a + w) == Progress(Scan(a).out, Scan(a).out != "")
  {
    hide Fold;
    var front := w[..|w| - 1];
    assert (a + w)[..|a + w| - 1] == a + front;
    assert IsWhitespace(w[|w| - 1]) && !IsInvisible(w[|w| - 1]);
    if front == "" {
      assert a + front == a;
    } else {
      ScanOfRun(a, front);
    }
  }

  /** Invisible controls may stand anywhere. */
  lemma InvisibleMakesNoDifference(a: string, x: string, b: string)
    requires AllInvisible(x)
    ensures Normalized(a + x + b) == Normalized(a + b)
  {
    hide Scan;
    ScanSkipsInvisible(a, x);
    ScanContinues(a + x, a, b);
  }

  /** One run of whitespace is as good as another. */
  lemma WhitespaceRunsAreAlike(a: string, v: string, w: string, b: string)
    requires AllWhitespace(v) && AllWhitespace(w) && v != "" && w != ""
    ensures Normalized(a + v + b) == Normalized(a + w + b)
  {
    hide Scan, AllWhitespace;
    ScanOfRun(a, v);
    ScanOfRun(a, w);
    ScanContinues(a + v, a + w, b);
  }

  lemma ScanStep(a: string, c: char)
    requires !IsInvisible(c) && !IsWhitespace(c)
    ensures Scan(a + [c]) == Progress(Scan(a).out + (if Scan(a).pending then " " else "") + Fold(c), false)
  {
    hide IsInvisible, IsWhitespace, Fold;
    assert (a + [c])[..|a|] == a;
  }

  lemma ScanOfPlain(a: string, c: char, d: char)
    requires !IsInvisible(c) && !IsWhitespace(c) && !IsInvisible(d) && !IsWhitespace(d) && Fold(c) == Fold(d)
    ensures Scan(a + [c]) == Scan(a + [d])
  {
    hide Scan, IsInvisible, IsWhitespace, Fold;
    ScanStep(a, c);
    ScanStep(a, d);
  }

  /** Typographic quotes, and the ellipsis, stand for their ASCII spelling; dashes stand for themselves. */
  lemma TypographyMakesNoDifference(a: string, c: char, b: string)
    ensures c in APOSTROPHES ==> Normalized(a + [c] + b) == Normalized(a + "'" + b)
    ensures c in QUOTES ==> Normalized(a + [c] + b) == Normalized(a + "\"" + b)
    ensures c == '\U{2026}' ==> Normalized(a + [c] + b) == Normalized(a + "..." + b)
    ensures '\U{2010}' <= c <= '\U{2015}' ==> Normalized([c]) == [c]
  {
    hide Scan;
    if c in APOSTROPHES {
      ScanOfPlain(a, c, '\'');
      ScanContinues(a + [c], a + "'", b);
    }
    if c in QUOTES {
      ScanOfPlain(a, c, '"');
      ScanContinues(a + [c], a + "\"", b);
    }
    if c == '\U{2026}' {
      ScanOfEllipsis(a);
      ScanContinues(a + [c], a + "...", b);
    }
    if '\U{2010}' <= c <= '\U{2015}' {
      FixedIffCanonical([c]);
    }
  }

  lemma ScanOfEllipsis(a: string)
    ensures Scan(a + ['\U{2026}']) == Scan(a + "...")
  {
    hide Scan;
    var one, two, three := a + ".", a + "..", a + "...";
    assert two == one + "." && three == two + ".";
    ScanStep(a, '\U{2026}');
    ScanStep(a, '.');
    ScanStep(one, '.');
    ScanStep(two, '.');
    var start := Scan(a).out + (if Scan(a).pending then " " else "");
    assert start + "..." == start + "." + "" + "." + "" + ".";
  }

  /** What is left of one character, by code point: nothing, a space, its ASCII
      spelling, or itself. */
  function Form(c: char): string {
    var n := c as int;
    if 0x200B <= n <= 0x200F || 0x202A <= n <= 0x202E || n == 0x2060 || n == 0xFEFF then ""
    else if 0x9 <= n <= 0xD || n in {0x20, 0x85, 0xA0, 0x1680, 0x2028, 0x2029, 0x202F, 0x205F, 0x3000}
            || 0x2000 <= n <= 0x200A then " "
    else if n in {0x2BC, 0x2018, 0x2019, 0x201B, 0x2032} then "'"
    else if n in {0x201C, 0x201D, 0x201F, 0x2033} then "\""
    else if n == 0x2026 then "..."
    else [c]
  }

  lemma FormIff(c: char)
    ensures IsInvisible(c) <==> Form(c) == ""
    ensures !IsInvisible(c) ==> (IsWhitespace(c) <==> Form(c) == " ")
    ensures !IsInvisible(c) && !IsWhitespace(c) ==> Fold(c) == Form(c)
  {
  }

  /** Between two letters, every character becomes its form. */
  lemma CharacterForms(c: char)
    ensures Normalized(['a', c, 'b']) == "a" + Form(c) + "b"
  {
    hide Scan, Form, IsInvisible, IsWhitespace, Fold, AllInvisible, AllWhitespace;
    FormIff(c);
    LetterForms('a');
    LetterForms('b');
    ScanOfLetter();
    assert "a" + [c] == ['a', c] && ['a', c] + ['b'] == ['a', c, 'b'];
    ScanStep(['a', c], 'b');
    if IsInvisible(c) {
      OneOfAll(c);
      ScanSkipsInvisible("a", [c]);
    } else if IsWhitespace(c) {
      OneOfAll(c);
      ScanOfRun("a", [c]);
    } else {
      ScanStep("a", c);
    }
  }

  lemma OneOfAll(c: char)
    ensures IsInvisible(c) ==> AllInvisible([c])
    ensures IsWhitespace(c) ==> AllWhitespace([c])
  {
  }

  lemma ScanOfLetter()
    ensures Scan("a") == Progress("a", false)
  {
    hide IsInvisible, IsWhitespace, Fold;
    LetterForms('a');
    ScanStep("", 'a');
    assert "" + ['a'] == "a";
  }

  lemma LetterForms(c: char)
    requires 'a' <= c <= 'z'
    ensures !IsInvisible(c) && !IsWhitespace(c) && Fold(c) == [c]
  {
  }

  lemma {:induction false} RunsHoldNoSpace(s: string, x: nat)
    requires x < |Runs(s)|
    ensures ' ' !in Runs(s)[x]
  {
    hide IsInvisible, IsWhitespace, Fold;
    if s != "" {
      var rest, c := s[..|s| - 1], s[|s| - 1];
      forall y | 0 <= y < |Runs(rest)| ensures ' ' !in Runs(rest)[y] {
        RunsHoldNoSpace(rest, y);
      }
      if !IsInvisible(c) && !IsWhitespace(c) {
        forall i | 0 <= i < |Fold(c)| ensures Fold(c)[i] != ' ' {
          FoldIsPlain(c, i);
        }
      }
    }
  }

  lemma {:induction false} NonEmptyIsFrom(runs: seq<string>, x: nat)
    requires x < |NonEmpty(runs)|
    ensures NonEmpty(runs)[x] in runs
  {
    var n := |runs| - 1;
    if x < |NonEmpty(runs[..n])| {
      NonEmptyIsFrom(runs[..n], x);
    }
  }

  /** Two texts have one normal form exactly when they have the same words. */
  lemma SameWordsIff(s: string, t: string)
    ensures Normalized(s) == Normalized(t) <==> Words(s) == Words(t)
  {
    hide Scan, Words, Join, Split;
    NormalizedIsWords(s);
    NormalizedIsWords(t);
    WordsAreJoinable(s);
    WordsAreJoinable(t);
    if Normalized(s) == Normalized(t) && Words(s) != [] && Words(t) != [] {
      SplitJoin(Words(s), ' ');
      SplitJoin(Words(t), ' ');
    }
  }

  lemma WordsAreJoinable(s: string)
    ensures forall x :: 0 <= x < |Words(s)| ==> ' ' !in Words(s)[x]
    ensures Join(Words(s), ' ') == "" <==> Words(s) == []
  {
    hide Scan, Runs, Join, NonEmpty;
    JoinIsEmpty(Words(s));
    forall x | 0 <= x < |Words(s)| ensures ' ' !in Words(s)[x] {
      NonEmptyIsFrom(Runs(s), x);
      var y :| 0 <= y < |Runs(s)| && Runs(s)[y] == Words(s)[x];
      RunsHoldNoSpace(s, y);
    }
  }

  // ---- matching ------------------------------------------------------------------------------

  /** What a match is: no expected text is matched by anything, no actual text
      matches none but that; else the expected form is the actual one, or, unless
      an exact match is asked for, a stretch of it. */
  lemma MatchIff(lower: string -> string, actual: Option<string>, expected: Option<string>, exact: bool)
    ensures expected.None? ==> TextMatches(lower, actual, expected, exact)
    ensures expected.Some? && actual.None? ==> !TextMatches(lower, actual, expected, exact)
    ensures expected.Some? && actual.Some? ==>
      var a, e := lower(Normalized(actual.value)), lower(Normalized(expected.value));
      (TextMatches(lower, actual, expected, exact)
       <==> if exact then a == e else exists before: string, after: string :: a == before + e + after)
  {
    hide Normalized;
    if expected.Some? && actual.Some? {
      ContainsIff(lower(Normalized(actual.value)), lower(Normalized(expected.value)));
    }
  }

  /** An exact match is a match. */
  lemma ExactImpliesSubstring(lower: string -> string, actual: Option<string>, expected: Option<string>)
    requires TextMatches(lower, actual, expected, true)
    ensures TextMatches(lower, actual, expected, false)
  {
    hide Scan, Normalized;
    if expected.Some? {
      var a := lower(Normalized(actual.value));
      assert a[0..|a|] == a;
      SliceIsContained(a, 0, |a|);
    }
  }

  lemma SubstringIsTransitive(lower: string -> string, a: string, b: string, c: string)
    requires TextMatches(lower, Some(a), Some(b), false) && TextMatches(lower, Some(b), Some(c), false)
    ensures TextMatches(lower, Some(a), Some(c), false)
  {
    hide Normalized;
    ContainsTransitive(lower(Normalized(a)), lower(Normalized(b)), lower(Normalized(c)));
  }
}
