/**
 The difference of two screens as a patch: with it and the old screen one knows
 the new one, exactly when no reported change is reverted under the same key.
 */
module ScreenPatch {
  import opened Json
  import opened ScreenDiff
  import opened ScreenKeys

  // ---- the patch -----------------------------------------------------------------------

  /** A screen as its reader knows it: by key, without the volatile fields. */
  function View(es: seq<Element>): map<string, Element> {
    map key | key in Keyed(es) :: Comparable(Keyed(es)[key])
  }

  /** The first number from `n` on whose key is not among `keys`. */
  function NextFree(keys: set<string>, base: string, n: nat): nat
    decreases |keys|
  {
    if Numbered(base, n) !in keys then n else NextFree(keys - {Numbered(base, n)}, base, n + 1)
  }

  /** The number of the last added element with this base, or 0. */
  function LastUsed(keys: set<string>, added: seq<Element>, base: string): nat {
    if added == [] then 0
    else
      var used := LastUsed(keys, added[..|added| - 1], base);
      if Base(added[|added| - 1]) == base then NextFree(keys, base, used + 1) else used
  }

  /** Added elements carry no key; each takes the next number of its base that no
      old key stands for. */
  function AddedView(keys: set<string>, added: seq<Element>): map<string, Element> {
    if added == [] then map[]
    else
      var e := added[|added| - 1];
      AddedView(keys, added[..|added| - 1])[Numbered(Base(e), LastUsed(keys, added, Base(e))) := Comparable(e)]
  }

  function ChangedView(changed: seq<Change>): map<string, Element> {
    if changed == [] then map[]
    else
      var c := changed[|changed| - 1];
      ChangedView(changed[..|changed| - 1])[c.key := Comparable(c.element)]
  }

  function RemovedKeys(removed: seq<Summary>): set<string> {
    set s | s in removed :: s.key
  }

  /** The new screen, told from the old one and the report alone. */
  function Patched(before: seq<Element>, d: Diff): map<string, Element> {
    (View(before) - RemovedKeys(d.removed)) + ChangedView(d.changed) + AddedView(View(before).Keys, d.added)
  }

  lemma ViewKeys(es: seq<Element>)
    ensures View(es).Keys == Keyed(es).Keys
  {
    hide Keyed, Comparable;
  }

  // ---- added elements -----------------------------------------------------------------------

  lemma {:induction false} NextFreeIs(keys: set<string>, base: string, n: nat, m: nat)
    requires 1 <= n <= m && Numbered(base, m) !in keys
    requires forall k :: n <= k < m ==> Numbered(base, k) in keys
    ensures NextFree(keys, base, n) == m
    decreases m - n
  {
    hide Numbered;
    if n < m {
      forall k | n + 1 <= k < m ensures Numbered(base, k) in keys - {Numbered(base, n)} {
        NumbersDiffer(base, n, k);
      }
      NextFreeIs(keys - {Numbered(base, n)}, base, n + 1, m);
    }
  }

  /** Between the last number used and the count, every number is an old key's. */
  predicate UsedUp(keys: set<string>, base: string, used: nat, count: nat) {
    used <= count && forall n :: used < n <= count ==> Numbered(base, n) in keys
  }

  lemma {:induction false} NumbersUsed(known: map<string, Element>, after: seq<Element>, base: string)
    ensures UsedUp(known.Keys, base, LastUsed(known.Keys, AddedTo(known, after), base), Count(after, base))
    decreases |after|
  {
    hide Numbered, Base, NextFree;
    if after != [] {
      NumbersUsed(known, after[..|after| - 1], base);
      if Base(after[|after| - 1]) == base && KeyOfLast(after) !in known {
        NextIsKey(known, after);
      }
      LastUsedStep(known, after, base);
    }
  }

  lemma LastUsedStep(known: map<string, Element>, after: seq<Element>, base: string)
    requires after != []
    ensures
      var rest, e := AddedTo(known, after[..|after| - 1]), after[|after| - 1];
      var used := LastUsed(known.Keys, rest, base);
      LastUsed(known.Keys, AddedTo(known, after), base)
        == if KeyOfLast(after) in known || Base(e) != base then used else NextFree(known.Keys, base, used + 1)
  {
    hide Base, KeyOfLast, NextFree;
    var rest, e := AddedTo(known, after[..|after| - 1]), after[|after| - 1];
    assert (rest + [e])[..|rest|] == rest;
  }

  /** An added element gets the number it has on the new screen. */
  lemma NextIsKey(known: map<string, Element>, after: seq<Element>)
    requires after != [] && KeyOfLast(after) !in known
    requires
      var rest, base := after[..|after| - 1], Base(after[|after| - 1]);
      UsedUp(known.Keys, base, LastUsed(known.Keys, AddedTo(known, rest), base), Count(rest, base))
    ensures
      var rest, base := after[..|after| - 1], Base(after[|after| - 1]);
      NextFree(known.Keys, base, LastUsed(known.Keys, AddedTo(known, rest), base) + 1) == Count(rest, base) + 1
  {
    hide Numbered, Base, NextFree, LastUsed, AddedTo;
    var rest, base := after[..|after| - 1], Base(after[|after| - 1]);
    NextFreeIs(known.Keys, base, LastUsed(known.Keys, AddedTo(known, rest), base) + 1, Count(rest, base) + 1);
  }

  lemma AddedLast(known: map<string, Element>, after: seq<Element>)
    requires after != []
    ensures
      var rest := AddedTo(known, after[..|after| - 1]);
      AddedTo(known, after) == if KeyOfLast(after) in known then rest else rest + [after[|after| - 1]]
  {
    hide KeyOfLast;
  }

  /** The number an added element is given is that of its key. */
  lemma NumberIsKey(known: map<string, Element>, after: seq<Element>)
    requires after != [] && KeyOfLast(after) !in known
    ensures
      var base := Base(after[|after| - 1]);
      Numbered(base, LastUsed(known.Keys, AddedTo(known, after), base)) == KeyOfLast(after)
  {
    hide Numbered, Base, NextFree, LastUsed, AddedTo, UsedUp, Count;
    var rest, base := after[..|after| - 1], Base(after[|after| - 1]);
    NumbersUsed(known, rest, base);
    NextIsKey(known, after);
    LastUsedStep(known, after, base);
  }

  lemma AddedStep(known: map<string, Element>, after: seq<Element>)
    requires after != []
    ensures
      var e := after[|after| - 1];
      var view := AddedView(known.Keys, AddedTo(known, after[..|after| - 1]));
      AddedView(known.Keys, AddedTo(known, after))
        == if KeyOfLast(after) in known then view else view[KeyOfLast(after) := Comparable(e)]
  {
    hide Numbered, Base, Comparable, AddedView, LastUsed, AddedTo, KeyOfLast;
    var rest, e := after[..|after| - 1], after[|after| - 1];
    AddedLast(known, after);
    if KeyOfLast(after) !in known {
      NumberIsKey(known, after);
      AddedViewLast(known.Keys, AddedTo(known, rest), e);
    }
  }

  lemma AddedViewLast(keys: set<string>, added: seq<Element>, e: Element)
    ensures AddedView(keys, added + [e])
      == AddedView(keys, added)[Numbered(Base(e), LastUsed(keys, added + [e], Base(e))) := Comparable(e)]
  {
    hide Base, Numbered, Comparable, LastUsed;
    var all := added + [e];
    assert all[..|all| - 1] == added && all[|all| - 1] == e;
  }

  /** The added part of the patch is the part of the new screen the old one lacks. */
  lemma {:induction false} AddedViewIsRight(known: map<string, Element>, after: seq<Element>, key: string)
    ensures
      var added := AddedView(known.Keys, AddedTo(known, after));
      && (key in added <==> key in Keyed(after) && key !in known)
      && (key in added ==> added[key] == Comparable(Keyed(after)[key]))
    decreases |after|
  {
    hide KeyOfLast, Base, Comparable, AddedView, AddedTo;
    if after == [] {
      NothingAdded(known);
    } else {
      AddedViewIsRight(known, after[..|after| - 1], key);
      AddedStep(known, after);
    }
  }

  lemma NothingAdded(known: map<string, Element>)
    ensures AddedView(known.Keys, AddedTo(known, [])) == map[]
  {
  }

  // ---- changed and removed elements -----------------------------------------------------------

  /** The `i`th new element is reported as a change of the old one with its key. */
  predicate Reported(known: map<string, Element>, after: seq<Element>, i: nat) {
    i < |after| && Keys(after)[i] in known && Comparable(known[Keys(after)[i]]) != Comparable(after[i])
  }

  predicate Differs(known: map<string, Element>, es: seq<Element>, key: string) {
    key in known && key in Keyed(es) && Comparable(known[key]) != Comparable(Keyed(es)[key])
  }

  /** Every key told of is told to have changed, and a key whose element did change
      is told of rightly. */
  lemma {:induction false} ChangedViewHolds(known: map<string, Element>, after: seq<Element>, key: string)
    ensures
      var changed := ChangedView(ChangedFrom(known, after));
      && (key in changed ==> key in known && key in Keyed(after) && changed[key] != Comparable(known[key]))
      && (Differs(known, after, key) ==> key in changed && changed[key] == Comparable(Keyed(after)[key]))
    decreases |after|
  {
    hide Comparable, KeyOfLast, Differing, ChangedView, ChangedFrom;
    if after == [] {
      NothingChanged(known);
    } else {
      ChangedViewHolds(known, after[..|after| - 1], key);
      ChangedStep(known, after);
    }
  }

  lemma {:induction false} ReportedIsTold(known: map<string, Element>, after: seq<Element>, i: nat)
    requires Reported(known, after, i)
    ensures Keys(after)[i] in ChangedView(ChangedFrom(known, after))
    decreases |after|
  {
    hide Comparable, KeyOfLast, Differing, ChangedView, ChangedFrom;
    ChangedStep(known, after);
    if i < |after| - 1 {
      ReportedIsTold(known, after[..|after| - 1], i);
    }
  }

  lemma {:induction false} ToldIsReported(known: map<string, Element>, after: seq<Element>, key: string) returns (i: nat)
    requires key in ChangedView(ChangedFrom(known, after))
    ensures Reported(known, after, i) && Keys(after)[i] == key
    decreases |after|
  {
    hide Comparable, KeyOfLast, Differing, ChangedView, ChangedFrom;
    if after == [] {
      NothingChanged(known);
    }
    var rest := after[..|after| - 1];
    ChangedStep(known, after);
    if key in ChangedView(ChangedFrom(known, rest)) {
      i := ToldIsReported(known, rest, key);
    } else {
      i := |rest|;
    }
  }

  lemma NothingChanged(known: map<string, Element>)
    ensures ChangedView(ChangedFrom(known, [])) == map[]
  {
  }

  lemma ChangedStep(known: map<string, Element>, after: seq<Element>)
    requires after != []
    ensures
      var rest, e, last := after[..|after| - 1], after[|after| - 1], KeyOfLast(after);
      ChangedView(ChangedFrom(known, after))
        == if last in known && Comparable(known[last]) != Comparable(e)
           then ChangedView(ChangedFrom(known, rest))[last := Comparable(e)]
           else ChangedView(ChangedFrom(known, rest))
  {
    hide KeyOfLast, Comparable, Differing, ChangedView;
    var rest, e, last := after[..|after| - 1], after[|after| - 1], KeyOfLast(after);
    if last in known && Comparable(known[last]) != Comparable(e) {
      ChangedViewLast(ChangedFrom(known, rest), Changed(last, known[last], e));
    }
  }

  lemma ChangedViewLast(changed: seq<Change>, c: Change)
    ensures ChangedView(changed + [c]) == ChangedView(changed)[c.key := Comparable(c.element)]
  {
    hide Comparable;
    var all := changed + [c];
    assert all[..|all| - 1] == changed && all[|all| - 1] == c;
  }

  lemma {:induction false} RemovedAreTheMissing(before: seq<Element>, kept: set<string>, key: string)
    ensures key in RemovedKeys(RemovedFrom(before, kept)) <==> key in Keyed(before) && key !in kept
    decreases |before|
  {
    hide KeyOfLast;
    if before != [] {
      var rest := RemovedFrom(before[..|before| - 1], kept);
      RemovedAreTheMissing(before[..|before| - 1], kept, key);
      var s := Summarised(KeyOfLast(before), before[|before| - 1]);
      assert forall r :: r in rest + [s] <==> r in rest || r == s;
    }
  }

  // ---- when the patch is right ------------------------------------------------------------------

  /** No element reported as a change has its key taken by a later one that is as
      the old one was. */
  predicate NothingReverted(before: seq<Element>, after: seq<Element>) {
    forall i :: 0 <= i < |after| && Reported(Keyed(before), after, i) ==> Differs(Keyed(before), after, Keys(after)[i])
  }

  /** On a screen with distinct keys every element is found by its key. */
  lemma {:induction false} FoundByKey(es: seq<Element>, i: nat)
    requires NoClash(es) && i < |es|
    ensures Keys(es)[i] in Keyed(es) && Keyed(es)[Keys(es)[i]] == es[i]
    decreases |es|
  {
    hide KeyOfLast, NoClash;
    if i < |es| - 1 {
      PrefixNoClash(es);
      FoundByKey(es[..|es| - 1], i);
      LastKeyIsNew(es);
    }
  }

  lemma NoClashNothingReverted(before: seq<Element>, after: seq<Element>)
    requires NoClash(after)
    ensures NothingReverted(before, after)
  {
    hide NoClash, Keyed, Comparable, Keys;
    forall i | 0 <= i < |after| && Reported(Keyed(before), after, i) ensures Differs(Keyed(before), after, Keys(after)[i]) {
      FoundByKey(after, i);
    }
  }

  /** Applying the report to the old screen gives the new one exactly when no
      reported change is reverted under the same key. */
  lemma PatchIsRightIff(before: seq<Element>, after: seq<Element>)
    ensures Patched(before, DiffOf(before, after)) == View(after) <==> NothingReverted(before, after)
  {
    hide NothingReverted;
    if NothingReverted(before, after) {
      PatchIsRight(before, after);
    } else {
      RevertedIsWrong(before, after);
    }
  }

  lemma PatchIsRight(before: seq<Element>, after: seq<Element>)
    requires NothingReverted(before, after)
    ensures Patched(before, DiffOf(before, after)) == View(after)
  {
    hide Keyed, Comparable, AddedView, ChangedView, RemovedKeys, AddedTo, ChangedFrom, RemovedFrom, KeySet, Keys;
    var known, d := Keyed(before), DiffOf(before, after);
    KeyedKeys(after);
    ViewKeys(before);
    forall key: string
      ensures key in Patched(before, d) <==> key in View(after)
      ensures key in View(after) ==> Patched(before, d)[key] == View(after)[key]
    {
      AddedViewIsRight(known, after, key);
      RemovedAreTheMissing(before, KeySet(Keys(after)), key);
      ChangedViewHolds(known, after, key);
      if key in ChangedView(d.changed) {
        var i := ToldIsReported(known, after, key);
      }
    }
  }

  lemma RevertedIsWrong(before: seq<Element>, after: seq<Element>)
    requires !NothingReverted(before, after)
    ensures Patched(before, DiffOf(before, after)) != View(after)
  {
    hide Keyed, Comparable, AddedView, ChangedView, RemovedKeys, AddedTo, ChangedFrom, RemovedFrom, KeySet, Keys;
    var known, d := Keyed(before), DiffOf(before, after);
    var i :| 0 <= i < |after| && Reported(known, after, i) && !Differs(known, after, Keys(after)[i]);
    var key := Keys(after)[i];
    ReportedIsTold(known, after, i);
    ChangedViewHolds(known, after, key);
    AddedViewIsRight(known, after, key);
    ViewKeys(before);
  }

  /** Where the new screen's keys are distinct, the report is a patch for it. */
  lemma DiffIsAPatch(before: seq<Element>, after: seq<Element>)
    requires NoClash(after)
    ensures Patched(before, DiffOf(before, after)) == View(after)
  {
    hide NoClash, NothingReverted, Patched, View, DiffOf;
    NoClashNothingReverted(before, after);
    PatchIsRightIff(before, after);
  }

  /** Two new elements with one key: the change to the first hides that the second
      is as the old one was. */
  lemma RevertedChangeIsMisread()
    ensures
      var row, odd := map["rid" := Str("row")], map["rid" := Str("row#2")];
      Patched([odd], DiffOf([odd], [row, row, odd])) != View([row, row, odd])
  {
    hide Patched, View, DiffOf;
    var row: Element, odd: Element := map["rid" := Str("row")], map["rid" := Str("row#2")];
    var after := [row, row, odd];
    CollidingKeys();
    OneKnown(odd, "rid:row#2");
    assert KeyOfLast(after) == Keys(after)[2];
    assert Keyed(after)["rid:row#2"] == odd;
    assert Comparable(row)["rid"] != Comparable(odd)["rid"];
    assert Reported(Keyed([odd]), after, 1);
    PatchIsRightIff([odd], after);
  }

  lemma OneKnown(e: Element, key: string)
    requires Base(e) == key
    ensures Keyed([e]) == map[key := e]
  {
    hide Base;
    assert [e][..0] == [] && Count([], key) == 0;
  }

  // ---- counts ------------------------------------------------------------------------------

  lemma KeyedStep(es: seq<Element>)
    ensures es == [] ==> Keyed(es).Keys == {}
    ensures es != [] ==> Keyed(es).Keys == Keyed(es[..|es| - 1]).Keys + {KeyOfLast(es)}
  {
    hide KeyOfLast;
  }

  lemma {:induction false} SizeOfKeyed(es: seq<Element>)
    requires NoClash(es)
    ensures |Keyed(es).Keys| == |es|
  {
    hide KeyOfLast, Base, Keyed;
    KeyedStep(es);
    if es != [] {
      PrefixNoClash(es);
      SizeOfKeyed(es[..|es| - 1]);
      LastKeyIsNew(es);
    }
  }

  lemma OneMore(a: set<string>, b: set<string>, x: string)
    requires x !in a
    ensures |a + {x} - b| == |a - b| + (if x in b then 0 else 1)
  {
    if x in b {
      assert a + {x} - b == a - b;
    } else {
      assert a + {x} - b == (a - b) + {x};
    }
  }

  lemma {:induction false} SizeOfAdded(known: map<string, Element>, after: seq<Element>)
    requires NoClash(after)
    ensures |AddedTo(known, after)| == |Keyed(after).Keys - known.Keys|
  {
    hide KeyOfLast, Base, Keyed;
    KeyedStep(after);
    if after != [] {
      var rest := after[..|after| - 1];
      PrefixNoClash(after);
      SizeOfAdded(known, rest);
      LastKeyIsNew(after);
      OneMore(Keyed(rest).Keys, known.Keys, KeyOfLast(after));
    }
  }

  lemma {:induction false} SizeOfRemoved(before: seq<Element>, kept: set<string>)
    requires NoClash(before)
    ensures |RemovedFrom(before, kept)| == |Keyed(before).Keys - kept|
  {
    hide KeyOfLast, Base, Summarised, Keyed;
    KeyedStep(before);
    if before != [] {
      var rest := before[..|before| - 1];
      PrefixNoClash(before);
      SizeOfRemoved(rest, kept);
      LastKeyIsNew(before);
      OneMore(Keyed(rest).Keys, kept, KeyOfLast(before));
    }
  }

  /** The counts of the report balance. */
  lemma CountsBalance(before: seq<Element>, after: seq<Element>)
    requires NoClash(before) && NoClash(after)
    ensures
      var d := DiffOf(before, after);
      |after| == |before| - |d.removed| + |d.added|
  {
    hide NoClash, Keyed, AddedTo, RemovedFrom, ChangedFrom, KeySet;
    SizeOfKeyed(before);
    SizeOfKeyed(after);
    KeyedKeys(after);
    SizeOfAdded(Keyed(before), after);
    SizeOfRemoved(before, KeySet(Keys(after)));
    Overlap(Keyed(before).Keys, Keyed(after).Keys);
  }

  lemma Overlap(a: set<string>, b: set<string>)
    ensures |b| == |a| - |a - b| + |b - a|
  {
    assert a == (a * b) + (a - b) && (a * b) !! (a - b);
    assert b == (a * b) + (b - a) && (a * b) !! (b - a);
  }

  // ---- screens that differ only in volatile fields ---------------------------------------------

  predicate SameScreen(a: seq<Element>, b: seq<Element>) {
    |a| == |b| && forall i :: 0 <= i < |a| ==> Comparable(a[i]) == Comparable(b[i])
  }

  lemma SameBase(a: Element, b: Element)
    requires Comparable(a) == Comparable(b)
    ensures Base(a) == Base(b)
  {
    SameField(a, b, "klass");
    SameField(a, b, "rid");
    SameField(a, b, "desc");
    SameField(a, b, "text");
  }

  lemma SameField(a: Element, b: Element, name: string)
    requires Comparable(a) == Comparable(b) && name !in VOLATILE_FIELDS
    ensures TextField(a, name) == TextField(b, name)
  {
    assert name in a <==> name in Comparable(a);
    assert name in b <==> name in Comparable(b);
    assert name in a ==> a[name] == Comparable(a)[name];
    assert name in b ==> b[name] == Comparable(b)[name];
  }

  lemma {:induction false} SameCount(a: seq<Element>, b: seq<Element>, base: string)
    requires SameScreen(a, b)
    ensures Count(a, base) == Count(b, base)
    decreases |a|
  {
    hide Base, Comparable;
    if a != [] {
      SameBase(a[|a| - 1], b[|b| - 1]);
      SameCount(a[..|a| - 1], b[..|b| - 1], base);
    }
  }

  lemma {:induction false} SameViews(a: seq<Element>, b: seq<Element>)
    requires SameScreen(a, b)
    ensures View(a) == View(b)
    decreases |a|
  {
    hide Base, Comparable, Numbered;
    if a != [] {
      var k, l := a[..|a| - 1], b[..|b| - 1];
      SameBase(a[|a| - 1], b[|b| - 1]);
      SameCount(k, l, Base(a[|a| - 1]));
      SameViews(k, l);
      ViewStep(a);
      ViewStep(b);
    }
  }

  lemma ViewStep(es: seq<Element>)
    requires es != []
    ensures View(es) == View(es[..|es| - 1])[KeyOfLast(es) := Comparable(es[|es| - 1])]
  {
    hide Base, Comparable, Numbered;
  }

  lemma NothingAddedIff(known: map<string, Element>, after: seq<Element>)
    ensures AddedTo(known, after) == [] <==> Keyed(after).Keys <= known.Keys
  {
    hide Keyed, AddedTo, Comparable, Numbered, Base, LastUsed;
    var added := AddedTo(known, after);
    if added == [] {
      forall key | key in Keyed(after).Keys ensures key in known {
        AddedViewIsRight(known, after, key);
      }
    } else {
      var e := added[|added| - 1];
      AddedViewIsRight(known, after, Numbered(Base(e), LastUsed(known.Keys, added, Base(e))));
    }
  }

  lemma NothingRemovedIff(before: seq<Element>, kept: set<string>)
    ensures RemovedFrom(before, kept) == [] <==> Keyed(before).Keys <= kept
  {
    hide Keyed, RemovedFrom;
    var removed := RemovedFrom(before, kept);
    if removed == [] {
      forall key | key in Keyed(before).Keys ensures key in kept {
        RemovedAreTheMissing(before, kept, key);
      }
    } else {
      assert removed[0].key in RemovedKeys(removed);
      RemovedAreTheMissing(before, kept, removed[0].key);
    }
  }

  lemma NothingChangedIff(known: map<string, Element>, after: seq<Element>)
    ensures ChangedFrom(known, after) == [] <==> forall i :: 0 <= i < |after| ==> !Reported(known, after, i)
  {
    hide ChangedFrom, Comparable, Keys;
    var changed := ChangedFrom(known, after);
    if changed == [] {
      forall i | 0 <= i < |after| ensures !Reported(known, after, i) {
        if Reported(known, after, i) {
          ReportedIsTold(known, after, i);
        }
      }
    } else {
      var c := changed[|changed| - 1];
      assert c.key in ChangedView(changed);
      var i := ToldIsReported(known, after, c.key);
    }
  }

  /** The report is empty exactly when old and new screen look the same by key and
      no change is reverted; for distinct new keys the latter goes without saying. */
  lemma EmptyDiffIff(before: seq<Element>, after: seq<Element>)
    ensures DiffOf(before, after) == Diff([], [], [])
      <==> View(before) == View(after) && NothingReverted(before, after)
    ensures NoClash(after) ==> (DiffOf(before, after) == Diff([], [], []) <==> View(before) == View(after))
  {
    hide NoClash, Keyed, Comparable, AddedTo, ChangedFrom, RemovedFrom, KeySet, Keys;
    var known := Keyed(before);
    KeyedKeys(after);
    ViewKeys(before);
    ViewKeys(after);
    NothingAddedIff(known, after);
    NothingRemovedIff(before, KeySet(Keys(after)));
    NothingChangedIff(known, after);
    if DiffOf(before, after) == Diff([], [], []) {
      PatchIsRight(before, after);
      assert Patched(before, Diff([], [], [])) == View(before);
    } else if View(before) == View(after) && NothingReverted(before, after) {
      assert forall key :: key in known ==> View(before)[key] == View(after)[key];
    }
    if NoClash(after) {
      NoClashNothingReverted(before, after);
    }
  }

  lemma {:induction false} SameKeys(a: seq<Element>, b: seq<Element>)
    requires SameScreen(a, b)
    ensures Keys(a) == Keys(b)
    decreases |a|
  {
    hide Base, Comparable, Numbered;
    if a != [] {
      var k, l := a[..|a| - 1], b[..|b| - 1];
      SameBase(a[|a| - 1], b[|b| - 1]);
      SameCount(k, l, Base(a[|a| - 1]));
      SameKeys(k, l);
    }
  }

  /** Two reads of one screen, which differ at most in ids and handles, give an
      empty report exactly when the keys of the screen are distinct. */
  lemma SameScreenIsNoDiff(before: seq<Element>, after: seq<Element>)
    requires SameScreen(before, after)
    ensures DiffOf(before, after) == Diff([], [], []) <==> NoClash(before)
  {
    hide DiffOf, View, NoClash, NothingReverted, KeysDiffer;
    SameViews(before, after);
    SameKeys(before, after);
    KeysDifferIff(before);
    KeysDifferIff(after);
    SameLengthSameKeys(before, after);
    EmptyDiffIff(before, after);
    if !NoClash(before) {
      SharedKeyIsReported(before, after);
    }
  }

  lemma SameLengthSameKeys(a: seq<Element>, b: seq<Element>)
    requires Keys(a) == Keys(b)
    ensures KeysDiffer(a) <==> KeysDiffer(b)
  {
    hide Keys;
  }

  /** Of two elements with one key, the old screen's only one by that key differs
      from at least one. */
  lemma SharedKeyIsReported(before: seq<Element>, after: seq<Element>)
    requires View(before) == View(after) && !NoClash(after)
    ensures DiffOf(before, after) != Diff([], [], [])
  {
    hide NoClash, Keyed, Keys, Comparable, AddedTo, ChangedFrom, RemovedFrom, KeySet;
    KeysDifferIff(after);
    var i, j :| 0 <= i < j < |after| && Keys(after)[i] == Keys(after)[j];
    KeyedKeys(after);
    ViewKeys(before);
    ViewKeys(after);
    KeyIsKnown(after, i);
    if Comparable(after[i]) == Comparable(after[j]) {
      SameBase(after[i], after[j]);
      SameBaseOtherKey(after, i, j);
    }
    NothingChangedIff(Keyed(before), after);
    assert Reported(Keyed(before), after, i) || Reported(Keyed(before), after, j);
  }

  lemma KeyIsKnown(es: seq<Element>, i: nat)
    requires i < |es|
    ensures Keys(es)[i] in Keyed(es).Keys
  {
    hide Keys, Keyed;
    KeyedKeys(es);
  }

  // ---- what is told of single elements -----------------------------------------------------------

  predicate SameAt(a: Element, b: Element, name: string) {
    (name in a <==> name in b) && (name in a && name in b ==> a[name] == b[name])
  }

  predicate Tells(e: Element, name: string) {
    name in {"text", "desc", "rid", "klass"} && name in e && e[name] != Null
  }

  /** A reported change names exactly the fields that differ, says what they were, and gives the element as it is. */
  lemma {:induction false} ChangesAreExact(before: seq<Element>, after: seq<Element>, c: Change)
    requires NoClash(after) && c in DiffOf(before, after).changed
    ensures c.key in Keyed(before) && c.key in Keyed(after) && c.element == Keyed(after)[c.key]
    ensures
      var was, now := Comparable(Keyed(before)[c.key]), Comparable(c.element);
      && (forall name: string :: name in c.fields <==> !SameAt(was, now, name))
      && c.before.Keys == c.fields
      && (forall name: string :: name in c.fields ==> c.before[name] == if name in was then was[name] else Null)
    decreases |after|
  {
    hide Base, Comparable, KeyOfLast;
    var rest, last := after[..|after| - 1], KeyOfLast(after);
    LastKeyIsNew(after);
    if c in ChangedFrom(Keyed(before), rest) {
      PrefixNoClash(after);
      ChangesAreExact(before, rest, c);
    }
  }

  /** What is said of a removed element was so, and it is gone. */
  lemma {:induction false} RemovalsAreDescribed(before: seq<Element>, kept: set<string>, s: Summary)
    requires NoClash(before) && s in RemovedFrom(before, kept)
    ensures s.key in Keyed(before) && s.key !in kept
    ensures forall name: string :: name in s.shown <==> Tells(Keyed(before)[s.key], name)
    ensures forall name: string :: name in s.shown && name in Keyed(before)[s.key] ==>
      s.shown[name] == Keyed(before)[s.key][name]
    decreases |before|
  {
    hide Base, KeyOfLast;
    var rest := before[..|before| - 1];
    LastKeyIsNew(before);
    if s in RemovedFrom(rest, kept) {
      PrefixNoClash(before);
      RemovalsAreDescribed(rest, kept, s);
    }
  }
}
