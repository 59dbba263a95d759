/**
 Text similarity: `similarity` and `bigrams` of cli/src/fusion.rs, over exact
 fractions.
 */
module Similarity {
  import opened Text
  import opened Selector

  type Bigram = (char, char)

  function Bigrams(s: string): seq<Bigram> {
    if |s| < 2 then [] else seq(|s| - 1, i requires 0 <= i < |s| - 1 => (s[i], s[i + 1]))
  }

  /** `position`. */
  function IndexOf(s: seq<Bigram>, x: Bigram): (i: nat)
    requires x in s
    ensures i < |s| && s[i] == x
  {
    if s[0] == x then 0 else 1 + IndexOf(s[1..], x)
  }

  /** `swap_remove`: the last element takes the place of the removed one. */
  function SwapRemove(s: seq<Bigram>, i: nat): (r: seq<Bigram>)
    requires i < |s|
    ensures |r| == |s| - 1 && multiset(r) == multiset(s) - multiset{s[i]}
  {
    var n := |s| - 1;
    assert s == s[..n] + [s[n]];
    if i == n then s[..n]
    else
      assert s[..n] == s[..i] + [s[i]] + s[i + 1..n];
      assert s[..n][i := s[n]] == s[..i] + [s[n]] + s[i + 1..n];
      s[..n][i := s[n]]
  }

  /** The bigrams two texts share, each counted as often as both have it. */
  ghost function Shared(a: seq<Bigram>, b: seq<Bigram>): nat {
    |multiset(a) * multiset(b)|
  }

  lemma PartsOf(a: multiset<Bigram>, b: multiset<Bigram>)
    ensures |b| == |a * b| + |b - a|
  {
    assert b == (a * b) + (b - a);
  }

  lemma OneLess(a: multiset<Bigram>, b: multiset<Bigram>, g: Bigram)
    ensures a - (b + multiset{g}) == a - b - multiset{g}
    ensures g !in a - b ==> a - b - multiset{g} == a - b
  {
  }

  lemma NextLess(a: seq<Bigram>, b: seq<Bigram>, i: nat)
    requires i < |b|
    ensures
      var left := multiset(a) - multiset(b[..i]);
      multiset(a) - multiset(b[..i + 1]) == if b[i] in left then left - multiset{b[i]} else left
  {
    assert b[..i + 1] == b[..i] + [b[i]];
    OneLess(multiset(a), multiset(b[..i]), b[i]);
  }

  /** `left` is what is left of `actual` without the first `i` of `wanted`. */
  predicate Remains(left: seq<Bigram>, actual: seq<Bigram>, wanted: seq<Bigram>, i: nat)
    requires i <= |wanted|
  {
    multiset(left) == multiset(actual) - multiset(wanted[..i])
  }

  lemma RemainsNext(left: seq<Bigram>, actual: seq<Bigram>, wanted: seq<Bigram>, i: nat)
    requires i < |wanted| && Remains(left, actual, wanted, i)
    ensures wanted[i] in left ==> Remains(SwapRemove(left, IndexOf(left, wanted[i])), actual, wanted, i + 1)
    ensures wanted[i] !in left ==> Remains(left, actual, wanted, i + 1)
  {
    hide IndexOf, SwapRemove;
    NextLess(actual, wanted, i);
    assert wanted[i] in left <==> wanted[i] in multiset(left);
  }

  lemma RemainsAll(left: seq<Bigram>, actual: seq<Bigram>, wanted: seq<Bigram>)
    requires Remains(left, actual, wanted, |wanted|)
    ensures |left| + Shared(wanted, actual) == |actual|
  {
    assert wanted[..|wanted|] == wanted;
    PartsOf(multiset(wanted), multiset(actual));
    assert |multiset(left)| == |left| && |multiset(actual)| == |actual|;
  }

  /** The loop counts exactly the shared bigrams and leaves the others. */
  method Overlap(wanted: seq<Bigram>, actual: seq<Bigram>) returns (overlap: nat, left: seq<Bigram>)
    ensures overlap == Shared(wanted, actual) && |left| == |actual| - overlap
  {
    overlap, left := 0, actual;
    assert Remains(left, actual, wanted, 0);
    hide Remains, IndexOf, SwapRemove, Shared;
    for i := 0 to |wanted|
      invariant overlap + |left| == |actual| && Remains(left, actual, wanted, i)
    {
      RemainsNext(left, actual, wanted, i);
      if wanted[i] in left {
        left := SwapRemove(left, IndexOf(left, wanted[i]));
        overlap := overlap + 1;
      }
    }
    RemainsAll(left, actual, wanted);
  }

  // ---- the score ----------------------------------------------------------------

  /** Twice the shared bigrams over all bigrams. */
  ghost function Dice(a: string, b: string): real
    requires |a| >= 2 && |b| >= 2
  {
    2.0 * Shared(Bigrams(a), Bigrams(b)) as real / (|Bigrams(a)| + |Bigrams(b)|) as real
  }

  function Portion(part: string, whole: string): real
    requires whole != ""
  {
    Utf8Length(part) as real / Utf8Length(whole) as real
  }

  /** The score of two normalised texts. */
  ghost function Score(w: string, a: string): real {
    if w == "" || a == "" then 0.0
    else if a == w then 1.0
    else if Contains(a, w) then 0.7 + 0.3 * Portion(w, a)
    else if Contains(w, a) then 0.5 + 0.3 * Portion(a, w)
    else if |w| < 2 || |a| < 2 then 0.0
    else Dice(w, a)
  }

  method ComputeSimilarity(lower: string -> string, wanted: string, actual: string) returns (score: real)
    ensures score == Score(lower(Normalized(wanted)), lower(Normalized(actual)))
  {
    hide Normalized, Contains, Utf8Length;
    var w := Normalize(wanted);
    var a := Normalize(actual);
    w, a := lower(w), lower(a);
    if w == "" || a == "" {
      return 0.0;
    }
    if a == w {
      return 1.0;
    }
    if Contains(a, w) {
      return 0.7 + 0.3 * Portion(w, a);
    }
    if Contains(w, a) {
      return 0.5 + 0.3 * Portion(a, w);
    }
    var wb, ab := Bigrams(w), Bigrams(a);
    if wb == [] || ab == [] {
      return 0.0;
    }
    var overlap, left := Overlap(wb, ab);
    score := 2.0 * overlap as real / (|wb| + |left| + overlap) as real;
  }

  // ---- what scores what -------------------------------------------------------------

  /** One more character adds the pair it forms with the last one. */
  lemma BigramsGrow(s: string, c: char)
    ensures Bigrams(s + [c]) == if s == "" then [] else Bigrams(s) + [(s[|s| - 1], c)]
  {
  }

  /** Equal texts, and only such whose pairs of characters agree, score one. */
  lemma PerfectScoreIff(w: string, a: string)
    ensures w != "" ==> Score(w, w) == 1.0
    ensures Score(w, a) == 1.0
      <==> w != "" && a != "" && (w == a || (Unrelated(w, a) && |w| >= 2 && |a| >= 2
           && multiset(Bigrams(w)) == multiset(Bigrams(a))))
  {
    hide Contains, Utf8Length, Dice, Bigrams;
    if w != "" && a != "" && w != a {
      ScoreIsBounded(w, a);
      if |w| >= 2 && |a| >= 2 {
        DiceIsBounded(w, a);
      }
    }
  }

  predicate Unrelated(w: string, a: string) {
    !Contains(w, a) && !Contains(a, w)
  }

  /** No score at all: an empty text, or neither text holds the other and no two
      neighbouring characters of the one stand so in the other. */
  lemma ZeroScoreIff(w: string, a: string)
    ensures Score(w, a) == 0.0
      <==> w == "" || a == "" || (Unrelated(w, a) && Shared(Bigrams(w), Bigrams(a)) == 0)
  {
    hide Contains, Utf8Length, Bigrams, Shared, Dice;
    if w != "" && a != "" {
      ScoreIsBounded(w, a);
      if w == a {
        assert a[0..|a|] == a;
        SliceIsContained(a, 0, |a|);
      } else if Unrelated(w, a) {
        if |w| >= 2 && |a| >= 2 {
          DiceEquation(w, a);
        } else {
          NothingToShare(w, a);
        }
      }
    }
  }

  lemma NothingToShare(w: string, a: string)
    requires |w| < 2 || |a| < 2
    ensures Shared(Bigrams(w), Bigrams(a)) == 0
  {
    assert multiset(Bigrams(w)) * multiset(Bigrams(a)) == multiset{};
  }

  /** Where neither text holds the other: twice the pairs shared, out of all pairs. */
  lemma DiceEquation(w: string, a: string)
    requires Unrelated(w, a) && |w| >= 2 && |a| >= 2
    ensures Score(w, a) * (|w| - 1 + |a| - 1) as real == 2.0 * Shared(Bigrams(w), Bigrams(a)) as real
  {
    hide Contains, Utf8Length, Bigrams, Shared;
    BigramsNonEmpty(w);
    BigramsNonEmpty(a);
    if w == a {
      assert a[0..|a|] == a;
      SliceIsContained(a, 0, |a|);
    }
  }

  /** Where one text properly holds the other, the share of its bytes decides. */
  lemma ContainmentScores(part: string, whole: string)
    requires HoldsProperly(whole, part)
    ensures whole != ""
    ensures
      var share := Utf8Length(part) as real / Utf8Length(whole) as real;
      Score(part, whole) == 0.7 + 0.3 * share && Score(whole, part) == 0.5 + 0.3 * share
  {
    hide Contains, Utf8Length;
    ContainsIsLonger(whole, part);
    PartIsShorter(part, whole);
    if Contains(part, whole) {
      PartIsShorter(whole, part);
    }
  }

  // ---- bounds ----------------------------------------------------------------------

  lemma PartIsShorter(part: string, whole: string)
    requires Contains(whole, part)
    ensures Utf8Length(part) <= Utf8Length(whole)
    ensures Utf8Length(part) == Utf8Length(whole) ==> part == whole
  {
    hide Contains;
    if Utf8Length(part) >= Utf8Length(whole) {
      OnlyItselfFits(whole, part);
    }
  }

  lemma ContainsIsLonger(whole: string, part: string)
    requires Contains(whole, part)
    ensures |part| <= |whole|
  {
  }

  lemma RatioIsBounded(m: nat, n: nat)
    requires m <= n && n > 0
    ensures 0.0 <= m as real / n as real <= 1.0
    ensures m as real / n as real == 1.0 <==> m == n
    ensures m > 0 ==> m as real / n as real > 0.0
  {
    var r := m as real / n as real;
    assert r * n as real == m as real;
  }

  lemma SharedIsBounded(a: seq<Bigram>, b: seq<Bigram>)
    ensures Shared(a, b) <= |a| && Shared(a, b) <= |b|
    ensures Shared(a, b) == |a| == |b| <==> multiset(a) == multiset(b)
  {
    var x, y := multiset(a), multiset(b);
    PartsOf(x, y);
    PartsOf(y, x);
    assert x * y == y * x;
    if Shared(a, b) == |a| == |b| {
      assert x - y == multiset{} && y - x == multiset{};
      assert x == x * y && y == x * y;
    }
  }

  lemma DiceIsBounded(a: string, b: string)
    requires |a| >= 2 && |b| >= 2
    ensures 0.0 <= Dice(a, b) <= 1.0
    ensures Dice(a, b) == 1.0 <==> multiset(Bigrams(a)) == multiset(Bigrams(b))
  {
    hide Bigrams, Shared, Dice;
    var x, y := Bigrams(a), Bigrams(b);
    SharedIsBounded(x, y);
    BigramsNonEmpty(a);
    DiceIsRatio(a, b);
    RatioIsBounded(2 * Shared(x, y), |x| + |y|);
  }

  lemma DiceIsRatio(a: string, b: string)
    requires |a| >= 2 && |b| >= 2
    ensures Dice(a, b) == (2 * Shared(Bigrams(a), Bigrams(b))) as real / (|Bigrams(a)| + |Bigrams(b)|) as real
  {
    hide Shared;
    var s := Shared(Bigrams(a), Bigrams(b));
    assert 2.0 * s as real == (2 * s) as real;
  }

  lemma BigramsNonEmpty(s: string)
    requires |s| >= 2
    ensures |Bigrams(s)| == |s| - 1
  {
  }

  /** A score is a fraction; a text that holds the wanted one scores above 0.7, the reverse between 0.5 and 0.8. */
  lemma ScoreIsBounded(w: string, a: string)
    ensures 0.0 <= Score(w, a) <= 1.0
    ensures w != "" && a != w && Contains(a, w) ==> 0.7 < Score(w, a) < 1.0
    ensures a != "" && a != w && Contains(w, a) ==> 0.5 < Score(w, a) < 0.8
  {
    hide Contains, Utf8Length, Dice;
    if w == "" || a == "" {
      if Contains(a, w) {
        ContainsIsLonger(a, w);
      }
      if Contains(w, a) {
        ContainsIsLonger(w, a);
      }
    } else if Contains(a, w) {
      PartIsShorter(w, a);
      RatioIsBounded(Utf8Length(w), Utf8Length(a));
      if Contains(w, a) {
        PartIsShorter(a, w);
      }
    } else if Contains(w, a) {
      PartIsShorter(a, w);
      RatioIsBounded(Utf8Length(a), Utf8Length(w));
    } else if |w| >= 2 && |a| >= 2 {
      DiceIsBounded(w, a);
    }
  }

  /** The score is the same both ways exactly when neither text properly holds the
      other, a non-empty one. */
  lemma ScoreIsSymmetricIff(w: string, a: string)
    ensures Score(w, a) == Score(a, w) <==> !HoldsProperly(w, a) && !HoldsProperly(a, w)
  {
    hide Contains, Utf8Length, Score;
    if HoldsProperly(a, w) {
      ContainmentIsDirected(w, a);
    } else if HoldsProperly(w, a) {
      ContainmentIsDirected(a, w);
    } else {
      ScoreIsSymmetric(w, a);
    }
  }

  predicate HoldsProperly(whole: string, part: string) {
    part != "" && part != whole && Contains(whole, part)
  }

  lemma ScoreIsSymmetric(w: string, a: string)
    requires !HoldsProperly(w, a) && !HoldsProperly(a, w)
    ensures Score(w, a) == Score(a, w)
  {
    hide Contains, Utf8Length, Bigrams;
    if w != "" && a != "" && |w| >= 2 && |a| >= 2 {
      assert multiset(Bigrams(w)) * multiset(Bigrams(a)) == multiset(Bigrams(a)) * multiset(Bigrams(w));
    }
  }

  /** Otherwise the direction of the containment counts. */
  lemma ContainmentIsDirected(w: string, a: string)
    requires HoldsProperly(a, w)
    ensures Score(w, a) == Score(a, w) + 0.2
  {
    hide Contains, Utf8Length;
    ContainsIsLonger(a, w);
    PartIsShorter(w, a);
    if Contains(w, a) {
      PartIsShorter(a, w);
    }
  }
}
