/** `sort` followed by `dedup` on a list of strings: its set in increasing order. */
module StringSets {
  import opened Basics

  /** The order of Rust strings. */
  predicate Less(a: string, b: string) {
    b != "" && (a == "" || a[0] < b[0] || (a[0] == b[0] && Less(a[1..], b[1..])))
  }

  lemma {:induction false} LessIsTotal(a: string, b: string)
    ensures a == b || Less(a, b) || Less(b, a)
    ensures !(Less(a, b) && Less(b, a)) && !Less(a, a)
  {
    if a != "" {
      LessIsTotal(a[1..], a[1..]);
    }
    if a != "" && b != "" && a[0] == b[0] {
      LessIsTotal(a[1..], b[1..]);
      HeadAndTail(a);
      HeadAndTail(b);
    }
  }

  lemma {:induction false} LessIsTransitive(a: string, b: string, c: string)
    requires Less(a, b) && Less(b, c)
    ensures Less(a, c)
  {
    if a != "" && a[0] == b[0] && b[0] == c[0] {
      LessIsTransitive(a[1..], b[1..], c[1..]);
    }
  }

  /** Where they first differ, the smaller character decides; a proper beginning
      comes before the whole. */
  lemma LessIff(a: string, b: string)
    ensures Less(a, b)
      <==> (|a| < |b| && a == b[..|a|]) || exists i :: 0 <= i < |a| && DifferAt(a, b, i)
  {
    if Less(a, b) {
      FirstDifference(a, b);
    }
    if |a| < |b| && a == b[..|a|] {
      BeginningIsLess(a, b);
    }
    forall i | 0 <= i < |a| && DifferAt(a, b, i) ensures Less(a, b) {
      DifferenceIsLess(a, b, i);
    }
  }

  predicate DifferAt(a: string, b: string, i: nat) {
    i < |a| && i < |b| && a[..i] == b[..i] && a[i] as int < b[i] as int
  }

  lemma {:induction false} FirstDifference(a: string, b: string)
    requires Less(a, b)
    ensures (|a| < |b| && a == b[..|a|]) || exists i :: 0 <= i < |a| && DifferAt(a, b, i)
  {
    if a != "" {
      if a[0] == b[0] {
        FirstDifference(a[1..], b[1..]);
        if i :| 0 <= i < |a[1..]| && DifferAt(a[1..], b[1..], i) {
          assert a[..i + 1] == [a[0]] + a[1..][..i] && b[..i + 1] == [b[0]] + b[1..][..i];
          assert DifferAt(a, b, i + 1);
        } else {
          assert a == [a[0]] + a[1..] && b[..|a|] == [b[0]] + b[1..][..|a[1..]|];
        }
      } else {
        assert DifferAt(a, b, 0);
      }
    }
  }

  lemma {:induction false} BeginningIsLess(a: string, b: string)
    requires |a| < |b| && a == b[..|a|]
    ensures Less(a, b)
  {
    if a != "" {
      assert a[0] == b[0] && a[1..] == b[1..][..|a| - 1];
      BeginningIsLess(a[1..], b[1..]);
    }
  }

  lemma {:induction false} DifferenceIsLess(a: string, b: string, i: nat)
    requires DifferAt(a, b, i)
    ensures Less(a, b)
    decreases i
  {
    if i > 0 {
      assert a[0] == a[..i][0] == b[..i][0] == b[0];
      assert a[1..][..i - 1] == a[..i][1..] && b[1..][..i - 1] == b[..i][1..];
      DifferenceIsLess(a[1..], b[1..], i - 1);
    }
  }

  predicate Ascending(s: seq<string>) {
    forall i, j :: 0 <= i < j < |s| ==> Less(s[i], s[j])
  }

  predicate Ordered(s: seq<string>) {
    forall i, j :: 0 <= i < j < |s| ==> !Less(s[j], s[i])
  }

  ghost predicate SameElements(a: seq<string>, b: seq<string>) {
    forall x :: x in a <==> x in b
  }

  function Sort(s: seq<string>): (r: seq<string>)
    ensures Ordered(r) && SameElements(r, s)
  {
    if s == [] then [] else HeadAndTail(s); Place(s[0], Sort(s[1..]))
  }

  function Place(x: string, s: seq<string>): (r: seq<string>)
    requires Ordered(s)
    ensures Ordered(r) && r != []
    ensures forall y :: y in r <==> y == x || y in s
  {
    if s == [] then [x]
    else if !Less(s[0], x) then PlaceFirst(x, s); [x] + s
    else
      HeadAndTail(s);
      PlaceLater(x, s[0], Place(x, s[1..]), s[1..]);
      [s[0]] + Place(x, s[1..])
  }

  lemma PlaceFirst(x: string, s: seq<string>)
    requires Ordered(s) && s != [] && !Less(s[0], x)
    ensures Ordered([x] + s)
  {
    forall j | 0 <= j < |s| ensures !Less(s[j], x) {
      if Less(s[j], x) && j > 0 {
        LessIsTotal(s[0], s[j]);
        if Less(s[0], s[j]) {
          LessIsTransitive(s[0], s[j], x);
        }
      }
    }
  }

  lemma PlaceLater(x: string, first: string, placed: seq<string>, rest: seq<string>)
    requires Ordered(placed) && Less(first, x)
    requires forall y :: y in placed <==> y == x || y in rest
    requires forall y :: y in rest ==> !Less(y, first)
    ensures Ordered([first] + placed)
  {
    LessIsTotal(first, x);
    forall j | 0 <= j < |placed| ensures !Less(placed[j], first) {
      assert placed[j] in placed;
    }
  }

  /** Drops each element equal to the one before it. */
  function Dedup(s: seq<string>): seq<string> {
    if |s| <= 1 then s
    else if s[0] == s[1] then Dedup(s[1..])
    else [s[0]] + Dedup(s[1..])
  }

  lemma {:induction false} DedupAscends(s: seq<string>)
    requires Ordered(s)
    ensures Ascending(Dedup(s)) && SameElements(Dedup(s), s)
    ensures s != [] ==> Dedup(s) != [] && Dedup(s)[0] == s[0]
  {
    if |s| > 1 {
      HeadAndTail(s);
      DedupAscends(s[1..]);
      if s[0] != s[1] {
        var rest := Dedup(s[1..]);
        forall j | 0 <= j < |rest| ensures Less(s[0], rest[j]) {
          LessIsTotal(s[0], s[1]);
          if j > 0 {
            LessIsTransitive(s[0], rest[0], rest[j]);
          }
        }
      }
    }
  }

  function SortDedup(s: seq<string>): (r: seq<string>)
    ensures Ascending(r) && SameElements(r, s)
  {
    DedupAscends(Sort(s));
    Dedup(Sort(s))
  }

  /** An ascending list is determined by its elements. */
  lemma {:induction false} AscendingIsUnique(a: seq<string>, b: seq<string>)
    requires Ascending(a) && Ascending(b) && SameElements(a, b)
    ensures a == b
  {
    assert b != [] ==> b[0] in b;
    if a != [] {
      assert a[0] in b;
      var j :| 0 <= j < |b| && b[j] == a[0];
      assert b[0] in b;
      var i :| 0 <= i < |a| && a[i] == b[0];
      FirstsAgree(a, b, i, j);
      HeadAndTail(a);
      HeadAndTail(b);
      forall x ensures x in a[1..] <==> x in b[1..] {
        TailLacksHead(a);
        TailLacksHead(b);
      }
      AscendingIsUnique(a[1..], b[1..]);
    }
  }

  lemma FirstsAgree(a: seq<string>, b: seq<string>, i: nat, j: nat)
    requires Ascending(a) && Ascending(b) && i < |a| && j < |b| && a[i] == b[0] && b[j] == a[0]
    ensures a[0] == b[0]
  {
    LessIsTotal(a[0], b[0]);
  }

  lemma TailLacksHead(a: seq<string>)
    requires Ascending(a) && a != []
    ensures a[0] !in a[1..]
  {
    LessIsTotal(a[0], a[0]);
  }

  lemma SortDedupIsCanonical(a: seq<string>, b: seq<string>)
    requires SameElements(a, b)
    ensures SortDedup(a) == SortDedup(b)
  {
    hide SortDedup;
    AscendingIsUnique(SortDedup(a), SortDedup(b));
  }
}
