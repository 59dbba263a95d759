/**
 The order in which known literals are scrubbed: longest first, by UTF-8 length
 (the loop of `redact_known_literals`, cli/src/redaction.rs).
 */
module LongestFirst {
  import opened Basics
  import opened Text
  import opened Placeholders
  import opened KnownLiterals
  import opened Scrubbing

  predicate LongestComeFirst(ls: seq<Literal>) {
    forall x, y :: 0 <= x < y < |ls| ==> Utf8Length(ls[x].text) >= Utf8Length(ls[y].text)
  }

  /** A stable sort by decreasing length. */
  function Sorted(ls: seq<Literal>): (r: seq<Literal>)
    ensures LongestComeFirst(r) && multiset(r) == multiset(ls)
  {
    if ls == [] then []
    else
      assert ls == [ls[0]] + ls[1..];
      PlacedInOrder(ls[0], Sorted(ls[1..]));
      Placed(ls[0], Sorted(ls[1..]))
  }

  function Placed(l: Literal, ls: seq<Literal>): (r: seq<Literal>)
    ensures multiset(r) == multiset{l} + multiset(ls)
  {
    hide Utf8Length;
    if ls == [] || Utf8Length(ls[0].text) <= Utf8Length(l.text) then [l] + ls
    else
      assert ls == [ls[0]] + ls[1..];
      [ls[0]] + Placed(l, ls[1..])
  }

  lemma {:induction false} PlacedInOrder(l: Literal, ls: seq<Literal>)
    requires LongestComeFirst(ls)
    ensures LongestComeFirst(Placed(l, ls))
  {
    hide Utf8Length;
    if ls == [] || Utf8Length(ls[0].text) <= Utf8Length(l.text) {
      LongestAhead(l, ls);
    } else {
      var rest := Placed(l, ls[1..]);
      PlacedInOrder(l, ls[1..]);
      forall other | other in rest ensures Utf8Length(other.text) <= Utf8Length(ls[0].text) {
        assert other in multiset(rest);
      }
      LongestAhead(ls[0], rest);
    }
  }

  lemma LongestAhead(first: Literal, rest: seq<Literal>)
    requires LongestComeFirst(rest)
    requires
      || (forall l :: l in rest ==> Utf8Length(l.text) <= Utf8Length(first.text))
      || (rest != [] && Utf8Length(rest[0].text) <= Utf8Length(first.text))
    ensures LongestComeFirst([first] + rest)
  {
    hide Utf8Length;
    forall y | 0 <= y < |rest| ensures Utf8Length(first.text) >= Utf8Length(rest[y].text) {
      assert rest[y] in rest;
    }
  }

  /** The loop over one text. */
  method ScrubText(text: string, literals: seq<Literal>) returns (result: string, replacements: nat)
    ensures (result, replacements) == ScrubAll(text, Sorted(literals))
  {
    hide Replaced, Sorted, Placed;
    result, replacements := text, 0;
    var ordered := Sorted(literals);
    assert ordered[0..] == ordered;
    for x := 0 to |ordered|
      invariant ScrubAll(text, ordered).0 == ScrubAll(result, ordered[x..]).0
      invariant ScrubAll(text, ordered).1 == replacements + ScrubAll(result, ordered[x..]).1
    {
      var redacted, count := ReplacePreservingMarks(result, ordered[x].text, ordered[x].mark);
      assert Literal(ordered[x].text, ordered[x].mark) == ordered[x];
      assert ordered[x..][0] == ordered[x] && ordered[x..][1..] == ordered[x + 1..];
      UnchangedWhenQuiet(result, ordered[x]);
      if count > 0 {
        result := redacted;
        replacements := replacements + count;
      }
    }
  }

  lemma UnchangedWhenQuiet(t: string, l: Literal)
    ensures Replaced(t, l).1 == 0 ==> Replaced(t, l).0 == t
  {
    hide Scrub, Hits;
    if l.text != "" && l.text != l.mark && Hits(t, l.text) == 0 {
      NoHits(t, l.text, l.mark);
    }
  }

  predicate DistinctTexts(ls: seq<Literal>) {
    forall x, y :: 0 <= x < y < |ls| ==> ls[x].text != ls[y].text
  }

  lemma {:induction false} WholeSecretGoes(ls: seq<Literal>, x: nat)
    requires x < |ls| && MarksAreMarks(ls) && LongestComeFirst(ls) && DistinctTexts(ls)
    requires ls[x].text != "" && MarkFree(ls[x].text)
    ensures ScrubAll(ls[x].text, ls) == (ls[x].mark, 1)
    decreases |ls|
  {
    hide IsMark, Scrub, Hits, FindMark;
    var t := ls[x].text;
    if x == 0 {
      MarkFreeHoldsNoMark(t, ls[0].mark);
      assert t != ls[0].mark by {
        assert t[0..|t|] == t;
        SliceIsContained(t, 0, |t|);
      }
      OwnReplacement(ls[0]);
      QuietOnMark(ls[0].mark, ls[1..]);
    } else {
      var l := ls[0];
      if l.text != "" {
        assert Spans(t) == [t];
        if !Clean(t, l.text) {
          OnlyItselfFits(t, l.text);
        }
        NoHitsIffClean(t, l.text);
        UnchangedWhenQuiet(t, l);
      }
      WholeSecretGoes(ls[1..], x - 1);
    }
  }

  /** A text that is itself a known secret becomes its placeholder and nothing else,
      exactly when it holds no placeholder already. */
  lemma WholeSecretGoesIff(ls: seq<Literal>, x: nat)
    requires x < |ls| && MarksAreMarks(ls) && LongestComeFirst(ls) && DistinctTexts(ls) && ls[x].text != ""
    ensures ScrubAll(ls[x].text, ls).0 == ls[x].mark && ScrubAll(ls[x].text, ls).1 == 1 <==> MarkFree(ls[x].text)
  {
    hide IsMark, FindMark, ScrubAll, Spans;
    if MarkFree(ls[x].text) {
      WholeSecretGoes(ls, x);
    } else {
      PlaceholdersSurvive(ls[x].text, ls);
      MarkAlone(ls[x].mark);
    }
  }

  lemma OwnReplacement(l: Literal)
    requires l.text != "" && MarkFree(l.text)
    ensures Scrub(l.text, l.text, l.mark) == l.mark && Hits(l.text, l.text) == 1
  {
    hide FindMark;
    var t := l.text;
    assert OccursAt(t, t, 0);
    assert OccurrenceFrom(t, t, 0) == Some(0);
    assert t[..0] == "" && t[0 + |t|..] == "";
    assert OccurrenceFrom("", t, 0).None?;
    assert Pieces(t, t) == ["", ""];
    JoinTwo("", "", l.mark);
  }

  /** A bare placeholder is left alone by every literal. */
  lemma QuietOnMark(mark: string, ls: seq<Literal>)
    requires IsMark(mark) && MarksAreMarks(ls)
    ensures ScrubAll(mark, ls) == (mark, 0)
  {
    hide IsMark, FindMark;
    MarkAlone(mark);
    QuietIffClean(mark, ls);
  }

  /** The order matters: taking a shorter secret first leaves part of a longer one in the open. */
  lemma ShortestFirstLeaks(mark: string)
    requires IsMark(mark)
    ensures ScrubAll("abcdefgh", [Literal("abcdefgh", mark), Literal("abcd", mark)]) == (mark, 1)
    ensures ScrubAll("abcdefgh", [Literal("abcd", mark), Literal("abcdefgh", mark)]) == (mark + "efgh", 1)
  {
    hide FindMark, IsMark, MarkAt, Scrub, Hits, Clean, Utf8Length;
    var long, short := Literal("abcdefgh", mark), Literal("abcd", mark);
    MarkIsLong(mark);
    ShortIsMarkFree("abcdefgh");
    OwnReplacement(long);
    QuietOnMark(mark, [short]);
    assert [long, short][1..] == [short];
    NoHeadInTail();
    assert "abcd" + "efgh" == "abcdefgh";
    HeadGoes("abcd", "efgh", mark);
    TailStays(mark);
    QuietIffClean(mark + "efgh", [long]);
    assert [short, long][1..] == [long];
  }

  /** A literal at the front of a short text is cut off it. */
  lemma HeadGoes(head: string, tail: string, mark: string)
    requires head != "" && |head + tail| < 12 && !Contains(tail, head)
    ensures Scrub(head + tail, head, mark) == mark + tail && Hits(head + tail, head) == 1
  {
    hide FindMark, IsMark, MarkAt;
    var t := head + tail;
    ShortIsMarkFree(t);
    assert t[..0] == "" && t[|head|..] == tail;
    assert OccursAt(t, head, 0) && OccurrenceFrom(t, head, 0) == Some(0);
    PiecesRestore(tail, head);
    assert Pieces(tail, head) == [tail] by {
      NoOccurrence(tail, head);
    }
    assert Pieces(t, head) == ["", tail];
    JoinTwo("", tail, mark);
    assert "" + mark + tail == mark + tail;
  }

  lemma NoOccurrence(s: string, part: string)
    requires !Contains(s, part)
    ensures OccurrenceFrom(s, part, 0).None?
  {
    hide OccurrenceFrom;
  }

  lemma JoinTwo(a: string, b: string, glue: string)
    ensures JoinWith([a, b], glue) == a + glue + b
  {
    assert [a, b][1..] == [b];
  }

  lemma NoHeadInTail()
    ensures !Contains("efgh", "abcd")
  {
    assert "efgh"[0..4][0] != "abcd"[0];
  }

  lemma TailStays(mark: string)
    requires IsMark(mark)
    ensures Clean(mark + "efgh", "abcdefgh")
  {
    hide FindMark, IsMark, MarkAt;
    ShortIsMarkFree("");
    ShortIsMarkFree("efgh");
    StepOver("", mark, "efgh");
    assert "" + mark + "efgh" == mark + "efgh";
  }

  lemma ShortIsMarkFree(t: string)
    requires |t| < 12
    ensures MarkFree(t)
  {
    hide FindMark;
  }
}
