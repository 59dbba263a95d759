/**
 When the keys of a screen's elements are distinct: exactly when no element's own
 base reads like the numbered key of a repeated one.
 */
module ScreenKeys {
  import opened Basics
  import opened Json
  import opened Text
  import opened ScreenDiff

  // ---- numbered keys --------------------------------------------------------------------

  predicate AllDigits(s: string) {
    forall i :: 0 <= i < |s| ==> IsDigit(s[i])
  }

  predicate NumberAt(s: string, i: nat) {
    i < |s| - 1 && s[i] == '#' && AllDigits(s[i + 1..])
  }

  lemma {:induction false} DecimalParses(n: nat)
    ensures Digits(Decimal(n)) == Some(n)
  {
    var last := [('0' as int + n % 10) as char];
    assert DigitValue(last[0]) == n % 10;
    if n < 10 {
      assert Decimal(n)[..0] == "";
    } else {
      DecimalParses(n / 10);
      var s := Decimal(n);
      assert s[..|s| - 1] == Decimal(n / 10) && s[|s| - 1] == last[0];
    }
  }

  lemma NumberedEnds(base: string, n: nat)
    requires n != 1
    ensures NumberAt(Numbered(base, n), |base|)
  {
    var key := Numbered(base, n);
    assert key[|base| + 1..] == Decimal(n);
  }

  /** The number of a key starts after its last `#`. */
  lemma OneNumber(s: string, i: nat, j: nat)
    requires NumberAt(s, i) && NumberAt(s, j)
    ensures i == j
  {
  }

  lemma SameNumbered(a: string, m: nat, b: string, n: nat)
    requires Numbered(a, m) == Numbered(b, n) && m >= 2 && n >= 2
    ensures a == b && m == n
  {
    hide Decimal, AllDigits;
    var key := Numbered(a, m);
    NumberedEnds(a, m);
    NumberedEnds(b, n);
    OneNumber(key, |a|, |b|);
    assert a == key[..|a|] == b;
    assert Decimal(m) == key[|a| + 1..] == Decimal(n);
    DecimalParses(m);
    DecimalParses(n);
  }

  lemma NumbersDiffer(base: string, m: nat, n: nat)
    requires 1 <= m && 1 <= n && m != n
    ensures Numbered(base, m) != Numbered(base, n)
  {
    hide Decimal;
    if m >= 2 && n >= 2 && Numbered(base, m) == Numbered(base, n) {
      SameNumbered(base, m, base, n);
    }
  }

  // ---- clashes --------------------------------------------------------------------------

  predicate HasBase(es: seq<Element>, base: string) {
    exists e :: e in es && Base(e) == base
  }

  /** No element's own base is the key of the `n`th element with another base. */
  ghost predicate NoClash(es: seq<Element>) {
    forall base: string, other: string, n: nat :: HasBase(es, base) && 2 <= n <= Count(es, other) ==>
      base != Numbered(other, n)
  }

  lemma {:induction false} CountPrefix(es: seq<Element>, all: seq<Element>, base: string)
    requires es <= all
    ensures Count(es, base) <= Count(all, base)
    decreases |all|
  {
    hide Base;
    if es != all {
      CountPrefix(es, all[..|all| - 1], base);
    }
  }

  lemma BasePrefix(es: seq<Element>, all: seq<Element>, base: string)
    requires es <= all
    ensures HasBase(es, base) ==> HasBase(all, base)
  {
    hide Base;
    assert all == es + all[|es|..];
  }

  lemma PrefixNoClash(es: seq<Element>)
    requires NoClash(es) && es != []
    ensures NoClash(es[..|es| - 1])
  {
    hide HasBase, Count, Numbered;
    var rest := es[..|es| - 1];
    forall base: string, other: string, n: nat | HasBase(rest, base) && 2 <= n <= Count(rest, other)
      ensures base != Numbered(other, n)
    {
      CountPrefix(rest, es, other);
      BasePrefix(rest, es, base);
    }
  }

  lemma KeysApart(es: seq<Element>, x: string, m: nat, y: string, n: nat)
    requires NoClash(es) && HasBase(es, x) && HasBase(es, y) && 1 <= m <= Count(es, x) && 1 <= n <= Count(es, y)
    ensures Numbered(x, m) == Numbered(y, n) ==> x == y && m == n
  {
    hide HasBase, Count, Decimal;
    assert m >= 2 ==> y != Numbered(x, m);
    assert n >= 2 ==> x != Numbered(y, n);
    if m >= 2 && n >= 2 && Numbered(x, m) == Numbered(y, n) {
      SameNumbered(x, m, y, n);
    }
  }

  /** Of elements with one base, exactly the first `Count` numbers are taken. */
  lemma {:induction false} KeysOfBase(all: seq<Element>, es: seq<Element>, base: string, n: nat)
    requires NoClash(all) && es <= all && HasBase(all, base) && 1 <= n <= Count(all, base)
    ensures Numbered(base, n) in Keyed(es) <==> n <= Count(es, base)
    decreases |es|
  {
    hide NoClash, Numbered, Base;
    if es != [] {
      var rest, last := es[..|es| - 1], es[|es| - 1];
      KeysOfBase(all, rest, base, n);
      assert last in all by { assert all[|es| - 1] == last; }
      assert HasBase(all, Base(last));
      CountPrefix(es, all, Base(last));
      KeysApart(all, base, n, Base(last), Count(rest, Base(last)) + 1);
    }
  }

  /** The last element's key is new. */
  lemma LastKeyIsNew(es: seq<Element>)
    requires NoClash(es) && es != []
    ensures KeyOfLast(es) !in Keyed(es[..|es| - 1])
  {
    hide NoClash, Numbered, Base, Keyed;
    var rest, last := es[..|es| - 1], es[|es| - 1];
    assert last in es && HasBase(es, Base(last));
    KeysOfBase(es, rest, Base(last), Count(rest, Base(last)) + 1);
  }

  lemma KeysStep(es: seq<Element>)
    requires es != []
    ensures KeySet(Keys(es)) == KeySet(Keys(es[..|es| - 1])) + {KeyOfLast(es)}
  {
    hide KeyOfLast;
    var keys := Keys(es[..|es| - 1]);
    assert Keys(es) == keys + [KeyOfLast(es)];
    hide Keys;
    assert forall key :: key in keys + [KeyOfLast(es)] <==> key in keys || key == KeyOfLast(es);
  }

  lemma {:induction false} KeyedKeys(es: seq<Element>)
    ensures Keyed(es).Keys == KeySet(Keys(es))
  {
    hide KeyOfLast, KeySet, Keys;
    if es == [] {
      NoKeys();
    } else {
      KeyedKeys(es[..|es| - 1]);
      KeysStep(es);
    }
  }

  lemma NoKeys()
    ensures KeySet(Keys([])) == {}
  {
  }

  // ---- distinct keys ------------------------------------------------------------------------

  predicate KeysDiffer(es: seq<Element>) {
    forall i, j :: 0 <= i < j < |es| ==> Keys(es)[i] != Keys(es)[j]
  }

  lemma {:induction false} KeysAreDistinct(es: seq<Element>, i: nat, j: nat)
    requires NoClash(es) && i < j < |es|
    ensures Keys(es)[i] != Keys(es)[j]
  {
    hide KeyOfLast, NoClash, Base;
    var rest := es[..|es| - 1];
    if j < |rest| {
      PrefixNoClash(es);
      KeysAreDistinct(rest, i, j);
    } else {
      LastKeyIsNew(es);
      KeyedKeys(rest);
      assert Keys(rest)[i] in KeySet(Keys(rest));
    }
  }

  /** The `n`th element with a base has its `n`th key. */
  lemma {:induction false} Occurrence(es: seq<Element>, base: string, n: nat) returns (i: nat)
    requires 1 <= n <= Count(es, base)
    ensures i < |es| && Base(es[i]) == base && Keys(es)[i] == Numbered(base, n)
  {
    hide Base, Numbered;
    var rest := es[..|es| - 1];
    if n <= Count(rest, base) {
      i := Occurrence(rest, base, n);
    } else {
      i := |rest|;
    }
  }

  lemma {:induction false} CountsBase(es: seq<Element>, base: string)
    ensures Count(es, base) >= 1 <==> HasBase(es, base)
  {
    hide Base;
    if es != [] {
      CountsBase(es[..|es| - 1], base);
      assert es == es[..|es| - 1] + [es[|es| - 1]];
    }
  }

  /** Elements with one base have different keys. */
  lemma SameBaseOtherKey(es: seq<Element>, i: nat, j: nat)
    requires i < j < |es| && Base(es[i]) == Base(es[j])
    ensures Keys(es)[i] != Keys(es)[j]
  {
    hide Base, Numbered;
    var base := Base(es[i]);
    KeyAt(es, i);
    KeyAt(es, j);
    assert es[..i + 1][..i] == es[..i] && es[..j + 1][..j] == es[..j];
    CountPrefix(es[..i + 1], es[..j], base);
    NumbersDiffer(base, Count(es[..i], base) + 1, Count(es[..j], base) + 1);
  }

  /** The keys of a screen are distinct exactly when nothing clashes. */
  lemma KeysDifferIff(es: seq<Element>)
    ensures KeysDiffer(es) <==> NoClash(es)
  {
    hide Keys, Numbered, Count, HasBase, Base;
    if NoClash(es) {
      forall i, j | 0 <= i < j < |es| ensures Keys(es)[i] != Keys(es)[j] {
        KeysAreDistinct(es, i, j);
      }
    } else {
      var base: string, other: string, n: nat :|
        HasBase(es, base) && 2 <= n <= Count(es, other) && base == Numbered(other, n);
      CountsBase(es, base);
      var i := Occurrence(es, base, 1);
      var k := Occurrence(es, other, n);
      FirstIsPlain(base);
      FirstIsPlain(other);
      NumbersDiffer(other, 1, n);
      assert Keys(es)[i] == Keys(es)[k];
    }
  }

  lemma FirstIsPlain(base: string)
    ensures Numbered(base, 1) == base
  {
  }

  /** A screen with a clash. */
  lemma CollidingKeys()
    ensures
      var row := map["rid" := Str("row")];
      var odd := map["rid" := Str("row#2")];
      Keys([row, row, odd])[1] == Keys([row, row, odd])[2] == "rid:row#2"
  {
    var row: Element := map["rid" := Str("row")];
    var odd: Element := map["rid" := Str("row#2")];
    assert Base(row) == "rid:row" && Base(odd) == "rid:row#2";
    CountTwo(row, odd);
    assert Decimal(2) == "2";
    KeyAt([row, row, odd], 1);
    KeyAt([row, row, odd], 2);
    assert [row, row, odd][..2] == [row, row] && [row, row, odd][..3] == [row, row, odd];
    assert [row, row, odd][..2][..1] == [row];
  }

  lemma CountTwo(row: Element, odd: Element)
    requires Base(row) != Base(odd)
    ensures Count([row], Base(row)) == 1 && Count([row, row], Base(odd)) == 0
  {
    hide Base;
    assert [row][..0] == [] && [row, row][..1] == [row];
    assert Count([row], Base(odd)) == 0;
  }
}
