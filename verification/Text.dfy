/** String operations of the source's standard library used by several modules. */
module Text {
  import opened Basics

  /** Index of the first `c`, or the length. */
  function Find(s: string, c: char): (i: nat)
    ensures i <= |s| && (forall k :: 0 <= k < i ==> s[k] != c) && (i < |s| ==> s[i] == c)
  {
    if s == [] || s[0] == c then 0 else 1 + Find(s[1..], c)
  }

  /** `split_once`. */
  function SplitOnce(s: string, c: char): (r: Option<(string, string)>)
    ensures r.Some? <==> c in s
    ensures r.Some? ==> s == r.value.0 + [c] + r.value.1 && c !in r.value.0
  {
    var i := Find(s, c);
    if i < |s| then Some((s[..i], s[i + 1..])) else None
  }

  lemma SplitOnceAt(a: string, c: char, b: string)
    requires c !in a
    ensures SplitOnce(a + [c] + b, c) == Some((a, b))
  {
    var s := a + [c] + b;
    assert s[|a|] == c && Find(s, c) == |a|;
    assert s[..|a|] == a && s[|a| + 1..] == b;
  }

  /** `split` on one character: always at least one piece. */
  function Split(s: string, c: char): (pieces: seq<string>)
    ensures pieces != []
    ensures forall i :: 0 <= i < |pieces| ==> c !in pieces[i]
    ensures Join(pieces, c) == s
    decreases |s|
  {
    var i := Find(s, c);
    if i == |s| then [s] else [s[..i]] + Split(s[i + 1..], c)
  }

  function Join(pieces: seq<string>, c: char): string {
    if pieces == [] then ""
    else if |pieces| == 1 then pieces[0]
    else pieces[0] + [c] + Join(pieces[1..], c)
  }

  /** Splitting undoes joining when no piece contains the separator. */
  lemma {:induction false} SplitJoin(pieces: seq<string>, c: char)
    requires pieces != [] && forall i :: 0 <= i < |pieces| ==> c !in pieces[i]
    ensures Split(Join(pieces, c), c) == pieces
  {
    if |pieces| == 1 {
      assert Find(pieces[0], c) == |pieces[0]|;
    } else {
      var rest := Join(pieces[1..], c);
      SplitJoin(pieces[1..], c);
      var s := pieces[0] + [c] + rest;
      assert s[|pieces[0]|] == c && Find(s, c) == |pieces[0]|;
      assert s[..|pieces[0]|] == pieces[0] && s[|pieces[0]| + 1..] == rest;
    }
  }

  lemma SliceOfSlice(s: string, i: nat, j: nat, k: nat, n: nat)
    requires i <= j <= |s| && k + n <= j - i
    ensures s[i..j][k..k + n] == s[i + k..i + k + n]
  {
    var a, b := s[i..j][k..k + n], s[i + k..i + k + n];
    forall x | 0 <= x < n ensures a[x] == b[x] {
      assert a[x] == s[i..j][k + x];
    }
  }

  predicate Contains(s: string, part: string) {
    exists i :: 0 <= i <= |s| - |part| && OccursAt(s, part, i)
  }

  predicate OccursAt(s: string, part: string, i: int) {
    0 <= i <= |s| - |part| && s[i..i + |part|] == part
  }

  lemma OccursWithin(s: string, i: nat, j: nat, part: string, k: nat)
    requires i <= j <= |s| && OccursAt(s[i..j], part, k)
    ensures OccursAt(s, part, i + k)
  {
    SliceOfSlice(s, i, j, k, |part|);
  }

  /** An ending stands behind any prefix. */
  lemma EndsWithIff(s: string, suffix: string)
    ensures EndsWith(s, suffix) <==> exists before: string :: s == before + suffix
  {
    if EndsWith(s, suffix) {
      assert s == s[..|s| - |suffix|] + suffix;
    }
  }

  lemma ContainsIff(s: string, part: string)
    ensures Contains(s, part) <==> exists before: string, after: string :: s == before + part + after
  {
    if Contains(s, part) {
      var i: nat :| i <= |s| - |part| && OccursAt(s, part, i);
      CutAt(s, part, i);
      assert s == s[..i] + part + s[i + |part|..];
    }
    if exists before: string, after: string :: s == before + part + after {
      var before: string, after: string :| s == before + part + after;
      assert OccursAt(s, part, |before|);
    }
  }

  lemma ContainsTransitive(s: string, middle: string, part: string)
    requires Contains(s, middle) && Contains(middle, part)
    ensures Contains(s, part)
  {
    var i: nat :| i <= |s| - |middle| && OccursAt(s, middle, i);
    var k: nat :| k <= |middle| - |part| && OccursAt(middle, part, k);
    OccursWithin(s, i, i + |middle|, part, k);
  }

  lemma SliceIsContained(s: string, i: nat, j: nat)
    requires i <= j <= |s|
    ensures Contains(s, s[i..j])
  {
    assert OccursAt(s, s[i..j], i);
  }

  lemma CutAt(s: string, part: string, i: nat)
    requires OccursAt(s, part, i)
    ensures s == s[..i] + part + s[i + |part|..]
  {
  }

  function Utf8Width(c: char): nat {
    if c < '\U{80}' then 1 else if c < '\U{800}' then 2 else if c < '\U{10000}' then 3 else 4
  }

  /** A character takes the fewest bytes that hold its code point: seven bits fit
      into one, and five times `n` and one more into `n`. */
  lemma Utf8WidthIsLeast(c: char)
    ensures
      var n := Utf8Width(c);
      && 1 <= n <= 4 && (c as int) < Capacity(n)
      && (n > 1 ==> Capacity(n - 1) <= c as int)
  {
    assert PowerOfTwo(7) == 128 && PowerOfTwo(11) == 2048;
    assert PowerOfTwo(16) == 65536 && PowerOfTwo(21) == 2097152;
  }

  function Capacity(n: nat): nat {
    if n <= 1 then PowerOfTwo(7) else PowerOfTwo(5 * n + 1)
  }

  function PowerOfTwo(n: nat): nat {
    if n == 0 then 1 else 2 * PowerOfTwo(n - 1)
  }

  /** The length in bytes. */
  function Utf8Length(s: string): (n: nat)
    ensures |s| <= n
  {
    if s == "" then 0 else Utf8Width(s[0]) + Utf8Length(s[1..])
  }

  lemma {:induction false} Utf8LengthOfConcat(a: string, b: string)
    ensures Utf8Length(a + b) == Utf8Length(a) + Utf8Length(b)
  {
    if a == "" {
      assert a + b == b;
    } else {
      assert (a + b)[1..] == a[1..] + b;
      Utf8LengthOfConcat(a[1..], b);
    }
  }

  /** A text at least as long as one it occurs in is that text. */
  lemma OnlyItselfFits(s: string, part: string)
    requires Contains(s, part) && Utf8Length(part) >= Utf8Length(s)
    ensures s == part
  {
    var i: nat :| i <= |s| - |part| && OccursAt(s, part, i);
    CutAt(s, part, i);
    Utf8LengthOfConcat(s[..i] + part, s[i + |part|..]);
    Utf8LengthOfConcat(s[..i], part);
  }

  /** The Unicode White_Space property. */
  predicate IsWhitespace(c: char) {
    || '\t' <= c <= '\r' || c == ' ' || c == '\U{85}' || c == '\U{A0}' || c == '\U{1680}'
    || '\U{2000}' <= c <= '\U{200A}' || c == '\U{2028}' || c == '\U{2029}' || c == '\U{202F}'
    || c == '\U{205F}' || c == '\U{3000}'
  }

  function TrimStart(s: string): string {
    if s != [] && IsWhitespace(s[0]) then TrimStart(s[1..]) else s
  }

  function TrimEnd(s: string): string {
    if s != [] && IsWhitespace(s[|s| - 1]) then TrimEnd(s[..|s| - 1]) else s
  }

  function Trim(s: string): string {
    TrimEnd(TrimStart(s))
  }

  predicate IsDigit(c: char) {
    '0' <= c <= '9'
  }

  function DigitValue(c: char): int
    requires IsDigit(c)
  {
    (c - '0') as int
  }

  /** The value of a digit string, or nothing when a character is no digit. */
  function Digits(s: string): Option<nat> {
    if s == [] then Some(0)
    else
      var n := |s| - 1;
      if !IsDigit(s[n]) || Digits(s[..n]).None? then None
      else Some(Digits(s[..n]).value * 10 + DigitValue(s[n]))
  }

  /** `parse` of an unsigned integer no larger than `max`; one leading `+` is allowed. */
  function ParseUnsigned(s: string, max: nat): Option<nat> {
    var body := if s != [] && s[0] == '+' then s[1..] else s;
    if body == [] || Digits(body).None? || Digits(body).value > max then None else Digits(body)
  }
}
