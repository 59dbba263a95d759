/**
 Redaction placeholders and how they are found in a text: cli/src/redaction.rs.
 */
module Placeholders {
  import opened Basics
  import opened Text

  datatype Kind = Secret | Token | Cookie | Email | Pii | Id | Ip | Configured

  function MarkName(kind: Kind, jwt: bool): string {
    match kind
    case Secret => "secret"
    case Token => if jwt then "jwt" else "token"
    case Cookie => "cookie"
    case Email => "email"
    case Pii => "pii"
    case Id => "id"
    case Ip => "ip"
    case Configured => "configured"
  }

  function Placeholder(kind: Kind, jwt: bool): string {
    "<redacted:" + MarkName(kind, jwt) + ">"
  }

  function Lower(c: char): char {
    if 'A' <= c <= 'Z' then c + 'a' - 'A' else c
  }

  /** Letters under Unicode case folding, where U+017F and U+212A are letters. */
  predicate IsNameStart(c: char) {
    'a' <= c <= 'z' || 'A' <= c <= 'Z' || c == '\U{17F}' || c == '\U{212A}'
  }

  predicate IsNameChar(c: char) {
    IsNameStart(c) || '0' <= c <= '9' || c == '_' || c == '-'
  }

  predicate IsName(s: string) {
    s != [] && IsNameStart(s[0]) && forall i :: 0 <= i < |s| ==> IsNameChar(s[i])
  }

  /** `s` is `pattern`, which is in lower case, in any mixture of cases. */
  predicate SameLetters(s: string, pattern: string) {
    |s| == |pattern| && forall i :: 0 <= i < |s| ==> Lower(s[i]) == pattern[i]
  }

  predicate IsPlainMark(m: string) {
    |m| >= 12 && SameLetters(m[..10], "<redacted:") && IsName(m[10..|m| - 1]) && m[|m| - 1] == '>'
  }

  predicate IsEncodedMark(m: string) {
    |m| >= 18 && SameLetters(m[..14], "%3credacted%3a") && IsName(m[14..|m| - 3]) && SameLetters(m[|m| - 3..], "%3e")
  }

  /** A whole placeholder: `<redacted:name>`, or the same percent-encoded. */
  predicate IsMark(m: string) {
    IsPlainMark(m) || IsEncodedMark(m)
  }

  lemma PlaceholderIsMark(kind: Kind, jwt: bool)
    ensures IsPlainMark(Placeholder(kind, jwt)) && |Placeholder(kind, jwt)| >= 12
  {
    var name := MarkName(kind, jwt);
    var m := Placeholder(kind, jwt);
    assert m[10..|m| - 1] == name;
    assert m[..10] == "<redacted:";
  }

  /** A letter, then letters, digits, `_` and `-`; case folding counts the long s
      and the Kelvin sign as letters. */
  predicate NameText(name: string) {
    && name != "" && (forall i :: 0 <= i < |name| ==>
      || 'a' <= name[i] <= 'z' || 'A' <= name[i] <= 'Z' || name[i] as int in {0x17F, 0x212A}
      || (i > 0 && ('0' <= name[i] <= '9' || name[i] == '_' || name[i] == '-')))
  }

  /** In small letters, the placeholders are exactly these two forms of a name. */
  lemma MarkIff(m: string)
    requires forall i :: 0 <= i < |m| ==> Lower(m[i]) == m[i]
    ensures IsMark(m)
      <==> exists name: string :: NameText(name)
             && (m == "<redacted:" + name + ">" || m == "%3credacted%3a" + name + "%3e")
  {
    if IsPlainMark(m) {
      var name := m[10..|m| - 1];
      assert m[..10] == "<redacted:" && m == m[..10] + name + [m[|m| - 1]];
      assert NameText(name);
    } else if IsEncodedMark(m) {
      var name := m[14..|m| - 3];
      assert m[..14] == "%3credacted%3a" && m[|m| - 3..] == "%3e" && m == m[..14] + name + m[|m| - 3..];
      assert NameText(name);
    }
    forall name: string | NameText(name) && m == "<redacted:" + name + ">" ensures IsPlainMark(m) {
      assert m[10..|m| - 1] == name && m[..10] == "<redacted:";
    }
    forall name: string | NameText(name) && m == "%3credacted%3a" + name + "%3e" ensures IsEncodedMark(m) {
      assert m[14..|m| - 3] == name && m[..14] == "%3credacted%3a" && m[|m| - 3..] == "%3e";
    }
  }

  /** Case makes no difference. */
  lemma MarkInAnyCase(m: string, n: string)
    requires |m| == |n| && forall i :: 0 <= i < |m| ==> Lower(m[i]) == Lower(n[i])
    ensures IsMark(m) <==> IsMark(n)
  {
    if |m| >= 12 {
      SameNames(m[10..|m| - 1], n[10..|n| - 1]);
    }
    if |m| >= 18 {
      SameNames(m[14..|m| - 3], n[14..|n| - 3]);
    }
  }

  lemma SameNames(a: string, b: string)
    requires |a| == |b| && forall i :: 0 <= i < |a| ==> Lower(a[i]) == Lower(b[i])
    ensures IsName(a) <==> IsName(b)
  {
    assert forall i :: 0 <= i < |a| ==> IsNameChar(a[i]) == IsNameChar(b[i]);
  }

  // ---- finding placeholders -----------------------------------------------------

  /** Inside a plain placeholder only its first character can open one. */
  lemma PlainMarkChars(m: string, i: nat)
    requires IsPlainMark(m) && 0 < i < |m|
    ensures m[i] != '<' && m[i] != '%' && (m[i] == '>' <==> i == |m| - 1)
  {
    if i < 10 {
      assert Lower(m[..10][i]) == "<redacted:"[i];
    } else if i < |m| - 1 {
      assert IsNameChar(m[10..|m| - 1][i - 10]);
    }
  }

  lemma EncodedMarkChars(m: string, i: nat)
    requires IsEncodedMark(m) && i < |m|
    ensures m[i] != '<'
    ensures m[i] == '%' <==> i == 0 || i == 11 || i == |m| - 3
  {
    if i < 14 {
      assert Lower(m[..14][i]) == "%3credacted%3a"[i];
    } else if i < |m| - 3 {
      assert IsNameChar(m[14..|m| - 3][i - 14]);
    } else {
      assert Lower(m[|m| - 3..][i - (|m| - 3)]) == "%3e"[i - (|m| - 3)];
    }
  }

  lemma EncodedMarkTriples(m: string)
    requires IsEncodedMark(m)
    ensures m[0] == '%' && Lower(m[2]) == 'c' && Lower(m[13]) == 'a' && Lower(m[|m| - 1]) == 'e'
  {
    assert Lower(m[..14][0]) == "%3credacted%3a"[0] && Lower(m[..14][2]) == "%3credacted%3a"[2];
    assert Lower(m[..14][13]) == "%3credacted%3a"[13];
    assert Lower(m[|m| - 3..][2]) == "%3e"[2];
  }

  lemma LastOfMark(m: string)
    requires IsMark(m)
    ensures m[|m| - 1] == '>' || Lower(m[|m| - 1]) == 'e'
  {
    if IsEncodedMark(m) {
      EncodedMarkTriples(m);
    }
  }

  lemma PlainMarkOpens(m: string)
    requires IsPlainMark(m)
    ensures m[0] == '<'
  {
    assert Lower(m[..10][0]) == "<redacted:"[0];
  }

  lemma MarkIsUnique(a: string, b: string)
    requires a <= b && IsMark(a) && IsMark(b)
    ensures a == b
  {
    var m := |a|;
    assert a[0] == b[0] && a[m - 1] == b[m - 1] && (m > 2 ==> a[m - 3] == b[m - 3]);
    if IsPlainMark(a) {
      PlainMarkOpens(a);
      if IsPlainMark(b) {
        PlainMarkChars(b, m - 1);
      } else {
        EncodedMarkTriples(b);
      }
    } else {
      EncodedMarkTriples(a);
      if IsPlainMark(b) {
        PlainMarkOpens(b);
      } else {
        EncodedMarkChars(a, m - 3);
        EncodedMarkChars(b, m - 3);
      }
    }
  }

  /** A placeholder stands at position `i`. */
  predicate MarkAt(t: string, i: nat, n: nat) {
    n > 0 && i + n <= |t| && IsMark(t[i..i + n])
  }

  lemma MarkAtSlice(t: string, i: nat, j: nat, k: nat, n: nat)
    requires i <= j <= |t| && k + n <= j - i
    ensures MarkAt(t[i..j], k, n) <==> MarkAt(t, i + k, n)
  {
    SliceOfSlice(t, i, j, k, n);
  }

  /** Two placeholders in one text are the same or do not overlap. */
  lemma MarksDoNotOverlap(t: string, i: nat, n: nat, j: nat, k: nat)
    requires MarkAt(t, i, n) && MarkAt(t, j, k) && i <= j < i + n
    ensures i == j && n == k
  {
    var m, c := t[i..i + n], t[j..j + k];
    if i == j {
      if n <= k {
        MarkIsUnique(m, c);
      } else {
        MarkIsUnique(c, m);
      }
    } else {
      assert m[j - i] == c[0] && (j - i + 2 < n ==> m[j - i + 2] == t[j + 2]);
      MarkOpening(c, 0);
      assert c[2] == t[j + 2];
      MarkOpening(m, j - i);
    }
  }

  /** What distinguishes the first character of a placeholder from the later ones. */
  lemma MarkOpening(m: string, i: nat)
    requires IsMark(m) && i < |m|
    ensures |m| >= 12
    ensures i == 0 ==> m[0] == '<' || (m[0] == '%' && Lower(m[2]) == 'c')
    ensures i > 0 ==> m[i] != '<' && (m[i] == '%' ==> i + 2 < |m| && Lower(m[i + 2]) in {'a', 'e'})
  {
    if IsPlainMark(m) {
      PlainMarkOpens(m);
      if i > 0 {
        PlainMarkChars(m, i);
      }
    } else {
      EncodedMarkTriples(m);
      EncodedMarkChars(m, i);
    }
  }

  /** The length of the placeholder at position `i`, or 0. */
  function MarkLength(t: string, i: nat, max: nat): (n: nat)
    requires i + max <= |t|
    ensures n > 0 ==> MarkAt(t, i, n)
    ensures n == 0 ==> forall k: nat :: k <= max ==> !MarkAt(t, i, k)
  {
    if max == 0 then 0 else if MarkAt(t, i, max) then max else MarkLength(t, i, max - 1)
  }

  /** Start and length of the leftmost placeholder at or after `from`. */
  function FindMark(t: string, from: nat): (r: Option<(nat, nat)>)
    requires from <= |t|
    ensures r.Some? ==> r.value.1 > 0 && from <= r.value.0 && r.value.0 + r.value.1 <= |t|
    ensures r.Some? ==> MarkAt(t, r.value.0, r.value.1)
    ensures r.Some? ==> forall i: nat, n: nat :: from <= i < r.value.0 ==> !MarkAt(t, i, n)
    ensures r.None? ==> forall i: nat, n: nat :: from <= i ==> !MarkAt(t, i, n)
    decreases |t| - from
  {
    hide IsMark;
    if from == |t| then None
    else if MarkLength(t, from, |t| - from) > 0 then Some((from, MarkLength(t, from, |t| - from)))
    else FindMark(t, from + 1)
  }

  function FirstMark(t: string): (r: Option<(nat, nat)>)
    ensures r.Some? ==> r.value.1 > 0 && r.value.0 + r.value.1 <= |t|
  {
    FindMark(t, 0)
  }

  /** The texts between placeholders, and the placeholders, in order. */
  function Spans(t: string): (spans: seq<string>)
    ensures spans != []
    decreases |t|
  {
    var found := FirstMark(t);
    if found.None? then [t]
    else [t[..found.value.0]] + Spans(t[found.value.0 + found.value.1..])
  }

  function Marks(t: string): seq<string>
    decreases |t|
  {
    var found := FirstMark(t);
    if found.None? then []
    else
      var (i, n) := found.value;
      [t[i..i + n]] + Marks(t[i + n..])
  }

  predicate MarkFree(t: string) {
    FirstMark(t).None?
  }

  lemma FirstMarkAt(a: string, m: string, rest: string)
    requires MarkFree(a) && IsMark(m) && m != ""
    ensures FirstMark(a + m + rest) == Some((|a|, |m|))
  {
    var t := a + m + rest;
    assert t[|a|..|a| + |m|] == m;
    assert MarkAt(t, |a|, |m|);
    assert t[0..|a|] == a;
    var (i, n) := FirstMark(t).value;
    if i + n <= |a| {
      MarkAtSlice(t, 0, |a|, i, n);
    } else {
      MarksDoNotOverlap(t, i, n, |a|, |m|);
    }
  }

  lemma SliceMarkFree(t: string, i: nat, j: nat)
    requires MarkFree(t) && i <= j <= |t|
    ensures MarkFree(t[i..j])
  {
    var found := FirstMark(t[i..j]);
    if found.Some? {
      var (k, n) := found.value;
      MarkAtSlice(t, i, j, k, n);
    }
  }

  /** A mark with nothing before it is the one the search finds. */
  lemma MarkUniqueAt(t: string, from: nat, i: nat, n: nat)
    requires from <= i && MarkAt(t, i, n)
    requires FindMark(t, from).Some? ==> i <= FindMark(t, from).value.0
    ensures FindMark(t, from) == Some((i, n))
  {
    var (j, k) := FindMark(t, from).value;
    MarksDoNotOverlap(t, i, n, j, k);
  }

  lemma BeforeFirstMark(t: string)
    requires FirstMark(t).Some?
    ensures MarkFree(t[..FirstMark(t).value.0])
  {
    var i := FirstMark(t).value.0;
    var found := FirstMark(t[0..i]);
    if found.Some? {
      var (k, n) := found.value;
      MarkAtSlice(t, 0, i, k, n);
    }
    assert t[0..i] == t[..i];
  }

  lemma MarkIsLong(m: string)
    requires IsMark(m)
    ensures |m| >= 12
  {
  }

  lemma MarkAlone(m: string)
    requires IsMark(m)
    ensures m != "" && Spans(m) == ["", ""] && Marks(m) == [m]
  {
    MarkOpening(m, 0);
    assert MarkFree("");
    FirstMarkAt("", m, "");
    assert "" + m + "" == m && m[|m|..] == "" && m[0..|m|] == m && m[..0] == "";
    assert Spans("") == [""] && Marks("") == [];
  }
}
