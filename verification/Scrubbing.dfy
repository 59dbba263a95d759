/**
 What scrubbing known literals guarantees: nothing of them is left outside
 placeholders, no placeholder is lost, and a second run finds nothing.
 */
module Scrubbing {
  import opened Text
  import opened Placeholders
  import opened KnownLiterals

  /** No stretch of `t` between placeholders holds `part`. */
  predicate Clean(t: string, part: string) {
    forall x :: 0 <= x < |Spans(t)| ==> !Contains(Spans(t)[x], part)
  }

  predicate AllMarkFree(pieces: seq<string>) {
    forall x :: 0 <= x < |pieces| ==> MarkFree(pieces[x])
  }

  function Repeat(x: string, n: nat): (r: seq<string>)
    ensures |r| == n
  {
    seq(n, _ => x)
  }

  /** `after` is `before` with `n` copies of `x` put in somewhere. */
  predicate Inserted(before: seq<string>, after: seq<string>, x: string, n: nat) {
    if after == [] then before == [] && n == 0
    else
      || (before != [] && before[0] == after[0] && Inserted(before[1..], after[1..], x, n))
      || (n > 0 && after[0] == x && Inserted(before, after[1..], x, n - 1))
  }

  lemma {:induction false} InsertedAhead(before: seq<string>, after: seq<string>, x: string, n: nat, k: nat)
    requires Inserted(before, after, x, n)
    ensures Inserted(before, Repeat(x, k) + after, x, n + k)
  {
    if k == 0 {
      assert Repeat(x, 0) + after == after;
    } else {
      InsertedAhead(before, after, x, n, k - 1);
      assert (Repeat(x, k) + after)[1..] == Repeat(x, k - 1) + after;
    }
  }

  // ---- the shape of a joined text -----------------------------------------------

  /** Joining placeholder-free pieces by a placeholder gives back exactly these spans. */
  lemma {:induction false} JoinedSpans(pieces: seq<string>, mark: string)
    requires pieces != [] && AllMarkFree(pieces) && IsMark(mark)
    ensures Spans(JoinWith(pieces, mark)) == pieces
    ensures Marks(JoinWith(pieces, mark)) == Repeat(mark, |pieces| - 1)
  {
    hide FindMark, IsMark;
    if |pieces| > 1 {
      var tail := JoinWith(pieces[1..], mark);
      JoinedSpans(pieces[1..], mark);
      StepOver(pieces[0], mark, tail);
    }
  }

  lemma {:induction false} JoinedSpansThen(pieces: seq<string>, mark: string, next: string, rest: string)
    requires pieces != [] && AllMarkFree(pieces) && IsMark(mark) && IsMark(next)
    ensures Spans(JoinWith(pieces, mark) + next + rest) == pieces + Spans(rest)
    ensures Marks(JoinWith(pieces, mark) + next + rest) == Repeat(mark, |pieces| - 1) + ([next] + Marks(rest))
  {
    hide FindMark, IsMark, Spans, Marks;
    StepOver(pieces[0], next, rest);
    if |pieces| > 1 {
      var tail := JoinWith(pieces[1..], mark);
      JoinedSpansThen(pieces[1..], mark, next, rest);
      StepOver(pieces[0], mark, tail + next + rest);
      Regroup(pieces[0], mark, tail, next, rest);
      assert [pieces[0]] + (pieces[1..] + Spans(rest)) == pieces + Spans(rest);
      assert Repeat(mark, |pieces| - 1) == [mark] + Repeat(mark, |pieces| - 2);
    }
  }

  lemma Regroup(a: string, b: string, c: string, d: string, e: string)
    ensures a + b + (c + d + e) == a + b + c + d + e
  {
  }

  lemma StepOver(a: string, mark: string, rest: string)
    requires MarkFree(a) && IsMark(mark)
    ensures Spans(a + mark + rest) == [a] + Spans(rest)
    ensures Marks(a + mark + rest) == [mark] + Marks(rest)
  {
    hide FindMark;
    MarkOpening(mark, 0);
    FirstMarkAt(a, mark, rest);
    var t := a + mark + rest;
    assert t[..|a|] == a && t[|a|..|a| + |mark|] == mark && t[|a| + |mark|..] == rest;
  }

  lemma {:induction false} PiecesAreMarkFree(s: string, part: string)
    requires part != "" && MarkFree(s)
    ensures AllMarkFree(Pieces(s, part))
  {
    hide FindMark, IsMark, Pieces;
    forall x | 0 <= x < |Pieces(s, part)| ensures MarkFree(Pieces(s, part)[x]) {
      PiecesAreClean(s, part, x);
      var piece := Pieces(s, part)[x];
      var i: nat :| i <= |s| - |piece| && OccursAt(s, piece, i);
      SliceMarkFree(s, i, i + |piece|);
    }
  }

  // ---- one literal ------------------------------------------------------------------

  /** The spans left by one replacement: those pieces, span by span. */
  function Cut(spans: seq<string>, part: string): seq<string>
    requires part != ""
  {
    if spans == [] then [] else Pieces(spans[0], part) + Cut(spans[1..], part)
  }

  /** Each span is cut at the literal; each cut leaves one new placeholder and every old one stays, in order. */
  lemma {:induction false} ScrubShape(t: string, part: string, mark: string)
    requires part != "" && IsMark(mark)
    ensures Spans(Scrub(t, part, mark)) == Cut(Spans(t), part)
    ensures Inserted(Marks(t), Marks(Scrub(t, part, mark)), mark, Hits(t, part))
    decreases |t|
  {
    hide FindMark, IsMark, Pieces, JoinWith, MarkAt;
    var found := FirstMark(t);
    if found.None? {
      PiecesAreMarkFree(t, part);
      JoinedSpans(Pieces(t, part), mark);
      InsertedAhead([], [], mark, 0, |Pieces(t, part)| - 1);
      assert Repeat(mark, |Pieces(t, part)| - 1) + [] == Marks(Scrub(t, part, mark));
      assert Cut(Spans(t), part) == Pieces(t, part) + Cut([], part);
    } else {
      var (i, n) := found.value;
      ScrubShape(t[i + n..], part, mark);
      ScrubShapeStep(t, part, mark);
    }
  }

  lemma ScrubShapeStep(t: string, part: string, mark: string)
    requires part != "" && IsMark(mark) && FirstMark(t).Some?
    requires
      var (i, n) := FirstMark(t).value;
      var rest := t[i + n..];
      && Spans(Scrub(rest, part, mark)) == Cut(Spans(rest), part)
      && Inserted(Marks(rest), Marks(Scrub(rest, part, mark)), mark, Hits(rest, part))
    ensures Spans(Scrub(t, part, mark)) == Cut(Spans(t), part)
    ensures Inserted(Marks(t), Marks(Scrub(t, part, mark)), mark, Hits(t, part))
  {
    hide FindMark, IsMark, Pieces, JoinWith, MarkAt, Inserted;
    var (i, n) := FirstMark(t).value;
    var head, next, rest := t[..i], t[i..i + n], t[i + n..];
    var pieces, marks := Pieces(head, part), Marks(Scrub(rest, part, mark));
    BeforeFirstMark(t);
    FirstMarkIsMark(t);
    PiecesAreMarkFree(head, part);
    JoinedSpansThen(pieces, mark, next, Scrub(rest, part, mark));
    InsertedBehind(Marks(rest), marks, mark, Hits(rest, part), next);
    InsertedAhead([next] + Marks(rest), [next] + marks, mark, Hits(rest, part), |pieces| - 1);
    CutStep(head, Spans(rest), part);
  }

  lemma InsertedBehind(before: seq<string>, after: seq<string>, x: string, n: nat, first: string)
    requires Inserted(before, after, x, n)
    ensures Inserted([first] + before, [first] + after, x, n)
  {
    assert ([first] + before)[1..] == before && ([first] + after)[1..] == after;
  }

  lemma CutStep(span: string, spans: seq<string>, part: string)
    requires part != ""
    ensures Cut([span] + spans, part) == Pieces(span, part) + Cut(spans, part)
  {
    assert ([span] + spans)[1..] == spans;
  }

  lemma FirstMarkIsMark(t: string)
    requires FirstMark(t).Some?
    ensures
      var (i, n) := FirstMark(t).value;
      IsMark(t[i..i + n])
  {
  }

  /** Every span that cutting leaves lies in an old span and holds no occurrence. */
  lemma {:induction false} CutIsClean(spans: seq<string>, part: string, x: nat) returns (y: nat)
    requires part != "" && x < |Cut(spans, part)|
    ensures y < |spans| && Contains(spans[y], Cut(spans, part)[x]) && !Contains(Cut(spans, part)[x], part)
  {
    hide Pieces, Contains;
    var pieces := Pieces(spans[0], part);
    if x < |pieces| {
      PiecesAreClean(spans[0], part, x);
      y := 0;
    } else {
      y := CutIsClean(spans[1..], part, x - |pieces|);
      y := y + 1;
    }
  }

  lemma {:induction false} SpansAreMarkFree(t: string, x: nat)
    requires x < |Spans(t)|
    ensures MarkFree(Spans(t)[x])
    decreases |t|
  {
    hide FindMark, IsMark;
    var found := FirstMark(t);
    if found.Some? {
      if x == 0 {
        BeforeFirstMark(t);
      } else {
        SpansAreMarkFree(t[found.value.0 + found.value.1..], x - 1);
      }
    }
  }

  lemma NoMarkAt(t: string, i: nat, n: nat)
    requires MarkFree(t)
    ensures !MarkAt(t, i, n)
  {
  }

  lemma MarkFreeHoldsNoMark(s: string, mark: string)
    requires MarkFree(s) && IsMark(mark)
    ensures !Contains(s, mark)
  {
    hide FindMark;
    MarkOpening(mark, 0);
    if Contains(s, mark) {
      var i: nat :| i <= |s| - |mark| && OccursAt(s, mark, i);
      NoMarkAt(s, i, |mark|);
    }
  }

  lemma ScrubbingCleans(t: string, l: Literal)
    requires l.text != "" && IsMark(l.mark)
    ensures Clean(Replaced(t, l).0, l.text)
  {
    hide IsMark, Contains, Spans, Scrub, Cut;
    var after := Replaced(t, l).0;
    ScrubShape(t, l.text, l.mark);
    forall x | 0 <= x < |Spans(after)| ensures !Contains(Spans(after)[x], l.text) {
      if l.text == l.mark {
        SpansAreMarkFree(t, x);
        MarkFreeHoldsNoMark(Spans(t)[x], l.mark);
      } else {
        var _ := CutIsClean(Spans(t), l.text, x);
      }
    }
  }

  /** A secret that is gone stays gone while others are scrubbed. */
  lemma ScrubbingKeepsClean(t: string, l: Literal, other: string)
    requires IsMark(l.mark) && Clean(t, other)
    ensures Clean(Replaced(t, l).0, other)
  {
    hide IsMark, Contains, Spans, Scrub, Cut;
    if l.text != "" && l.text != l.mark {
      ScrubShape(t, l.text, l.mark);
      var after := Scrub(t, l.text, l.mark);
      forall x | 0 <= x < |Spans(after)| ensures !Contains(Spans(after)[x], other) {
        var y := CutIsClean(Spans(t), l.text, x);
        if Contains(Spans(after)[x], other) {
          ContainsTransitive(Spans(t)[y], Spans(after)[x], other);
        }
      }
    }
  }

  /** The count is zero exactly when there is nothing to scrub. */
  lemma {:induction false} NoHitsIffClean(t: string, part: string)
    requires part != ""
    ensures Hits(t, part) == 0 <==> Clean(t, part)
    decreases |t|
  {
    hide FindMark, Contains, Pieces, IsMark;
    var found := FirstMark(t);
    if found.None? {
      PiecesRestore(t, part);
      assert Spans(t)[0] == t;
    } else {
      var (i, n) := found.value;
      var head, rest := t[..i], t[i + n..];
      PiecesRestore(head, part);
      NoHitsIffClean(rest, part);
      assert Spans(t) == [head] + Spans(rest);
      CleanStep(head, rest, t, part);
    }
  }

  lemma CleanStep(head: string, rest: string, t: string, part: string)
    requires Spans(t) == [head] + Spans(rest)
    ensures Clean(t, part) <==> !Contains(head, part) && Clean(rest, part)
  {
    hide Spans, Contains;
    if Clean(t, part) {
      assert Spans(t)[0] == head;
      forall x | 0 <= x < |Spans(rest)| ensures !Contains(Spans(rest)[x], part) {
        assert Spans(t)[x + 1] == Spans(rest)[x];
      }
    }
  }

  // ---- all literals -------------------------------------------------------------------

  /** One literal after another; the counts add up. */
  function ScrubAll(t: string, ls: seq<Literal>): (string, nat)
    decreases |ls|
  {
    if ls == [] then (t, 0)
    else
      var once := Replaced(t, ls[0]);
      var rest := ScrubAll(once.0, ls[1..]);
      (rest.0, once.1 + rest.1)
  }

  predicate MarksAreMarks(ls: seq<Literal>) {
    forall x :: 0 <= x < |ls| ==> IsMark(ls[x].mark)
  }

  lemma {:induction false} AllKeepClean(t: string, ls: seq<Literal>, other: string)
    requires MarksAreMarks(ls) && Clean(t, other)
    ensures Clean(ScrubAll(t, ls).0, other)
    decreases |ls|
  {
    hide Clean, Replaced, IsMark;
    if ls != [] {
      ScrubbingKeepsClean(t, ls[0], other);
      AllKeepClean(Replaced(t, ls[0]).0, ls[1..], other);
    }
  }

  /** After the loop no literal is left anywhere outside placeholders. */
  lemma {:induction false} NothingKnownIsLeft(t: string, ls: seq<Literal>, x: nat)
    requires MarksAreMarks(ls) && x < |ls| && ls[x].text != ""
    ensures Clean(ScrubAll(t, ls).0, ls[x].text)
    decreases |ls|
  {
    hide Clean, Replaced, IsMark;
    var once := Replaced(t, ls[0]).0;
    if x == 0 {
      ScrubbingCleans(t, ls[0]);
      AllKeepClean(once, ls[1..], ls[0].text);
    } else {
      NothingKnownIsLeft(once, ls[1..], x - 1);
    }
  }

  /** The loop reports zero, and changes nothing, exactly when every literal is already gone. */
  lemma {:induction false} QuietIffClean(t: string, ls: seq<Literal>)
    requires MarksAreMarks(ls)
    ensures ScrubAll(t, ls).1 == 0 <==> forall x :: 0 <= x < |ls| ==> ls[x].text == "" || Clean(t, ls[x].text)
    ensures ScrubAll(t, ls).1 == 0 ==> ScrubAll(t, ls).0 == t
    decreases |ls|
  {
    hide Clean, IsMark, Scrub, Hits;
    if ls != [] {
      var l := ls[0];
      QuietIffClean(Replaced(t, l).0, ls[1..]);
      if l.text != "" {
        ScrubbingCleans(t, l);
        NoHitsIffClean(t, l.text);
        if Hits(t, l.text) == 0 {
          NoHits(t, l.text, l.mark);
        }
      }
      assert forall x :: 0 < x < |ls| ==> ls[x] == ls[1..][x - 1];
    }
  }

  /** A second run over its own result replaces nothing. */
  lemma SecondRunIsQuiet(t: string, ls: seq<Literal>)
    requires MarksAreMarks(ls)
    ensures ScrubAll(ScrubAll(t, ls).0, ls) == (ScrubAll(t, ls).0, 0)
  {
    hide Clean, IsMark, ScrubAll;
    forall x | 0 <= x < |ls| && ls[x].text != "" ensures Clean(ScrubAll(t, ls).0, ls[x].text) {
      NothingKnownIsLeft(t, ls, x);
    }
    QuietIffClean(ScrubAll(t, ls).0, ls);
  }

  // ---- placeholders survive ---------------------------------------------------------------

  /** All of `a`, in order, somewhere in `b`. */
  predicate Subsequence(a: seq<string>, b: seq<string>) {
    if a == [] then true
    else if b == [] then false
    else (a[0] == b[0] && Subsequence(a[1..], b[1..])) || Subsequence(a, b[1..])
  }

  lemma {:induction false} InsertedKeeps(before: seq<string>, after: seq<string>, x: string, n: nat)
    requires Inserted(before, after, x, n)
    ensures Subsequence(before, after) && |after| == |before| + n
    decreases |after|
  {
    if after != [] {
      if before != [] && before[0] == after[0] && Inserted(before[1..], after[1..], x, n) {
        InsertedKeeps(before[1..], after[1..], x, n);
      } else {
        InsertedKeeps(before, after[1..], x, n - 1);
      }
    }
  }

  lemma {:induction false} SubsequenceTransitive(a: seq<string>, b: seq<string>, c: seq<string>)
    requires Subsequence(a, b) && Subsequence(b, c)
    ensures Subsequence(a, c)
    decreases |b| + |c|
  {
    if a != [] {
      if b[0] == c[0] && Subsequence(b[1..], c[1..]) {
        if a[0] == b[0] && Subsequence(a[1..], b[1..]) {
          SubsequenceTransitive(a[1..], b[1..], c[1..]);
        } else {
          SubsequenceTransitive(a, b[1..], c[1..]);
        }
      } else {
        SubsequenceTransitive(a, b, c[1..]);
      }
    }
  }

  lemma {:induction false} SubsequenceOfItself(a: seq<string>)
    ensures Subsequence(a, a)
  {
    if a != [] {
      SubsequenceOfItself(a[1..]);
    }
  }

  /** No placeholder is lost or moved, and the count is the number of placeholders gained. */
  lemma {:induction false} PlaceholdersSurvive(t: string, ls: seq<Literal>)
    requires MarksAreMarks(ls)
    ensures Subsequence(Marks(t), Marks(ScrubAll(t, ls).0))
    ensures |Marks(ScrubAll(t, ls).0)| == |Marks(t)| + ScrubAll(t, ls).1
    decreases |ls|
  {
    hide IsMark, Marks, Scrub, Hits, Inserted, Subsequence;
    SubsequenceOfItself(Marks(t));
    if ls != [] {
      var l := ls[0];
      var once := Replaced(t, l);
      PlaceholdersSurvive(once.0, ls[1..]);
      if l.text != "" && l.text != l.mark {
        ScrubShape(t, l.text, l.mark);
        InsertedKeeps(Marks(t), Marks(once.0), l.mark, once.1);
        SubsequenceTransitive(Marks(t), Marks(once.0), Marks(ScrubAll(t, ls).0));
      }
    }
  }
}
