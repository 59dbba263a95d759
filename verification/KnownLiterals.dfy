/**
 Scrubbing known secret texts while leaving placeholders alone:
 `replace_literal_preserving_placeholders` and the loop around it in
 cli/src/redaction.rs.
 */
module KnownLiterals {
  import opened Basics
  import opened Text
  import opened Placeholders

  /** A secret text and the placeholder that takes its place. */
  datatype Literal = Literal(text: string, mark: string)

  // ---- substrings -----------------------------------------------------------

  function OccurrenceFrom(s: string, part: string, from: nat): (r: Option<nat>)
    requires from <= |s|
    ensures r.Some? ==> from <= r.value && OccursAt(s, part, r.value)
    ensures r.Some? ==> forall k :: from <= k < r.value ==> !OccursAt(s, part, k)
    ensures r.None? ==> forall k :: from <= k ==> !OccursAt(s, part, k)
    decreases |s| - from
  {
    if OccursAt(s, part, from) then Some(from)
    else if from == |s| then None
    else OccurrenceFrom(s, part, from + 1)
  }

  /** The texts around the non-overlapping occurrences of `part`, found left to right. */
  function Pieces(s: string, part: string): (pieces: seq<string>)
    requires part != ""
    ensures pieces != []
    decreases |s|
  {
    var found := OccurrenceFrom(s, part, 0);
    if found.None? then [s] else [s[..found.value]] + Pieces(s[found.value + |part|..], part)
  }

  function JoinWith(pieces: seq<string>, glue: string): string
    requires pieces != []
  {
    if |pieces| == 1 then pieces[0] else pieces[0] + glue + JoinWith(pieces[1..], glue)
  }

  /** `str::replace`. */
  function Replace(s: string, part: string, with: string): string
    requires part != ""
  {
    JoinWith(Pieces(s, part), with)
  }

  /** Nothing occurs before the first occurrence. */
  lemma HeadIsClean(s: string, part: string)
    requires part != ""
    ensures
      var found := OccurrenceFrom(s, part, 0);
      !Contains(if found.Some? then s[..found.value] else s, part)
  {
    hide OccurrenceFrom;
    var found := OccurrenceFrom(s, part, 0);
    var n := if found.Some? then found.value else |s|;
    var head := s[0..n];
    assert head == s[..n];
    if Contains(head, part) {
      var k: nat :| k <= |head| - |part| && OccursAt(head, part, k);
      OccursWithin(s, 0, n, part, k);
    }
  }

  /** Every piece is a stretch of the text, and holds no occurrence. */
  lemma {:induction false} PiecesAreClean(s: string, part: string, x: nat)
    requires part != "" && x < |Pieces(s, part)|
    ensures Contains(s, Pieces(s, part)[x]) && !Contains(Pieces(s, part)[x], part)
    decreases |s|
  {
    hide OccurrenceFrom, Contains;
    var found := OccurrenceFrom(s, part, 0);
    if found.None? {
      assert s[0..|s|] == s;
      SliceIsContained(s, 0, |s|);
      HeadIsClean(s, part);
    } else if x == 0 {
      var head := s[0..found.value];
      assert s[..found.value] == head;
      SliceIsContained(s, 0, found.value);
      HeadIsClean(s, part);
    } else {
      var rest := s[found.value + |part|..|s|];
      assert s[found.value + |part|..] == rest;
      PiecesAreClean(rest, part, x - 1);
      SliceIsContained(s, found.value + |part|, |s|);
      ContainsTransitive(s, rest, Pieces(rest, part)[x - 1]);
    }
  }

  /** Putting the occurrences back restores the text: nothing else was taken. */
  lemma {:induction false} PiecesRestore(s: string, part: string)
    requires part != ""
    ensures JoinWith(Pieces(s, part), part) == s
    ensures |Pieces(s, part)| == 1 <==> !Contains(s, part)
    decreases |s|
  {
    var found := OccurrenceFrom(s, part, 0);
    if found.Some? {
      PiecesRestore(s[found.value + |part|..], part);
      CutAt(s, part, found.value);
    }
  }

  // ---- one literal ------------------------------------------------------------

  /** Replaces `part` everywhere outside placeholders. */
  function Scrub(t: string, part: string, with: string): string
    requires part != ""
    decreases |t|
  {
    var found := FirstMark(t);
    if found.None? then Replace(t, part, with)
    else
      var (i, n) := found.value;
      Replace(t[..i], part, with) + t[i..i + n] + Scrub(t[i + n..], part, with)
  }

  /** How many occurrences lie outside placeholders. */
  function Hits(t: string, part: string): nat
    requires part != ""
    decreases |t|
  {
    var found := FirstMark(t);
    if found.None? then |Pieces(t, part)| - 1
    else
      var (i, n) := found.value;
      |Pieces(t[..i], part)| - 1 + Hits(t[i + n..], part)
  }

  /** What one replacement gives: an empty literal or one that is its own placeholder changes nothing. */
  function Replaced(t: string, l: Literal): (string, nat) {
    if l.text == "" || l.text == l.mark then (t, 0) else (Scrub(t, l.text, l.mark), Hits(t, l.text))
  }

  /** The search for the next placeholder restarts at the end of the last one. */
  lemma FindMarkShift(t: string, from: nat)
    requires from <= |t|
    ensures FindMark(t, from) == Shifted(FirstMark(t[from..]), from)
  {
    hide FindMark, IsMark, MarkAt;
    var rest := t[from..|t|];
    assert rest == t[from..];
    var near, far := FirstMark(rest), FindMark(t, from);
    if far.Some? {
      MarkAtSlice(t, from, |t|, far.value.0 - from, far.value.1);
    }
    if near.Some? {
      MarkAtSlice(t, from, |t|, near.value.0, near.value.1);
      MarkUniqueAt(t, from, from + near.value.0, near.value.1);
    }
  }

  function Shifted(found: Option<(nat, nat)>, offset: nat): Option<(nat, nat)> {
    if found.None? then None else Some((offset + found.value.0, found.value.1))
  }

  lemma {:induction false} NoHits(t: string, part: string, with: string)
    requires part != "" && Hits(t, part) == 0
    ensures Scrub(t, part, with) == t
    decreases |t|
  {
    hide FindMark, Pieces;
    var found := FirstMark(t);
    if found.None? {
      PiecesRestore(t, part);
    } else {
      var (i, n) := found.value;
      PiecesRestore(t[..i], part);
      NoHits(t[i + n..], part, with);
      assert t == t[..i] + t[i..i + n] + t[i + n..];
    }
  }

  /** One turn of the loop: what lies past the cursor, up to the next placeholder and beyond. */
  lemma ScrubNext(t: string, cursor: nat, part: string, with: string)
    requires part != "" && cursor <= |t| && FindMark(t, cursor).Some?
    ensures
      var (start, n) := FindMark(t, cursor).value;
      && Hits(t[cursor..], part) == |Pieces(t[cursor..start], part)| - 1 + Hits(t[start + n..], part)
      && Scrub(t[cursor..], part, with)
        == Replace(t[cursor..start], part, with) + t[start..start + n] + Scrub(t[start + n..], part, with)
  {
    hide FindMark, IsMark, MarkAt, Pieces, Replace;
    FindMarkShift(t, cursor);
    var rest := t[cursor..];
    var (start, n) := FindMark(t, cursor).value;
    SlicesPast(t, cursor, start, n);
    assert FirstMark(rest).value == (start - cursor, n);
  }

  lemma SlicesPast(t: string, cursor: nat, start: nat, n: nat)
    requires cursor <= start && start + n <= |t|
    ensures t[cursor..][..start - cursor] == t[cursor..start]
    ensures t[cursor..][start - cursor..start - cursor + n] == t[start..start + n]
    ensures t[cursor..][start - cursor + n..] == t[start + n..]
  {
  }

  /** The turn after the last placeholder. */
  lemma ScrubLast(t: string, cursor: nat, part: string, with: string)
    requires part != "" && cursor <= |t| && FindMark(t, cursor).None?
    ensures Hits(t[cursor..], part) == |Pieces(t[cursor..], part)| - 1
    ensures Scrub(t[cursor..], part, with) == Replace(t[cursor..], part, with)
  {
    hide FindMark, IsMark, MarkAt, Pieces, Replace;
    FindMarkShift(t, cursor);
  }

  lemma Regrouped(a: string, b: string, c: string, d: string)
    ensures a + (b + c + d) == a + b + c + d
  {
  }

  method ReplacePreservingMarks(input: string, literal: string, replacement: string)
      returns (output: string, changes: nat)
    ensures (output, changes) == Replaced(input, Literal(literal, replacement))
  {
    hide FindMark, IsMark, MarkAt, Pieces, Scrub, Hits, Replace;
    if literal == "" || literal == replacement {
      return input, 0;
    }
    var cursor := 0;
    output, changes := "", 0;
    var found := FindMark(input, cursor);
    assert input[0..] == input;
    while found.Some?
      invariant cursor <= |input| && found == FindMark(input, cursor)
      invariant output + Scrub(input[cursor..], literal, replacement) == Scrub(input, literal, replacement)
      invariant changes + Hits(input[cursor..], literal) == Hits(input, literal)
      decreases |input| - cursor
    {
      ScrubNext(input, cursor, literal, replacement);
      var (start, n) := found.value;
      var span := input[cursor..start];
      changes := changes + (|Pieces(span, literal)| - 1);
      Regrouped(output, Replace(span, literal, replacement), input[start..start + n],
        Scrub(input[start + n..], literal, replacement));
      output := output + Replace(span, literal, replacement) + input[start..start + n];
      cursor := start + n;
      found := FindMark(input, cursor);
    }
    ScrubLast(input, cursor, literal, replacement);
    var span := input[cursor..];
    changes := changes + (|Pieces(span, literal)| - 1);
    output := output + Replace(span, literal, replacement);
    if changes == 0 {
      NoHits(input, literal, replacement);
      output := input;
    }
  }
}
