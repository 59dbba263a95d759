/**
 Redacting a source document: secrets found at sensitive keys are also scrubbed
 from every other text of the document (`collect_sensitive_literals`,
 `redact_known_literals` and `redact_source_value`, cli/src/redaction.rs).
 */
module SourceRedaction {
  import opened Basics
  import opened Json
  import opened Text
  import opened Placeholders
  import opened SensitiveNames
  import opened KnownLiterals
  import opened Scrubbing
  import opened LongestFirst
  import opened JsonRedaction
  import opened JsonGuarantees

  // ---- collecting ---------------------------------------------------------------

  /** A text at a sensitive key, long enough to look for elsewhere. */
  predicate WorthScrubbing(p: Policy, f: Field) {
    Sensitive(p, f.key) && f.value.Str? && Utf8Length(f.value.s) >= 4 && !IsMark(f.value.s)
  }

  /** `insert` of a map from text to placeholder. */
  function Put(ls: seq<Literal>, l: Literal): seq<Literal> {
    if ls == [] then [l]
    else if ls[0].text == l.text then [l] + ls[1..]
    else [ls[0]] + Put(ls[1..], l)
  }

  function WithSecret(p: Policy, f: Field, ls: seq<Literal>): seq<Literal> {
    if WorthScrubbing(p, f)
      then Put(ls, Literal(f.value.s, MarkFor(p, SensitiveKind(f.key, p.custom).value, f.value)))
      else ls
  }

  function Collect(p: Policy, v: Value, ls: seq<Literal>): seq<Literal>
    decreases v
  {
    match v
    case Object(fields) => CollectFields(p, fields, ls)
    case Array(items) => CollectItems(p, items, ls)
    case Str(_) => ls
    case Number(_) => ls
    case Null => ls
    case Bool(_) => ls
  }

  function CollectFields(p: Policy, fields: seq<Field>, ls: seq<Literal>): seq<Literal>
    decreases fields
  {
    if fields == [] then ls
    else CollectFields(p, fields[1..], Collect(p, fields[0].value, WithSecret(p, fields[0], ls)))
  }

  function CollectItems(p: Policy, items: seq<Value>, ls: seq<Literal>): seq<Literal>
    decreases items
  {
    if items == [] then ls else CollectItems(p, items[1..], Collect(p, items[0], ls))
  }

  /** The member stores `s`, of four bytes or more, at a sensitive key. */
  predicate StoresAt(p: Policy, f: Field, s: string) {
    Sensitive(p, f.key) && f.value == Str(s) && Utf8Length(s) >= 4 && !IsMark(s)
  }

  /** The document stores `s` at a sensitive key somewhere. */
  predicate Holds(p: Policy, v: Value, s: string)
    decreases v
  {
    match v
    case Object(fields) =>
      exists f :: f in fields && (StoresAt(p, f, s) || Holds(p, f.value, s))
    case Array(items) => exists w :: w in items && Holds(p, w, s)
    case Str(_) => false
    case Number(_) => false
    case Null => false
    case Bool(_) => false
  }

  predicate HasText(ls: seq<Literal>, s: string) {
    exists l :: l in ls && l.text == s
  }

  predicate Usable(ls: seq<Literal>) {
    forall l :: l in ls ==> l.text != "" && IsMark(l.mark)
  }

  lemma {:induction false} PutAdds(ls: seq<Literal>, l: Literal, s: string)
    ensures HasText(Put(ls, l), s) <==> HasText(ls, s) || l.text == s
    ensures Usable(ls) && l.text != "" && IsMark(l.mark) ==> Usable(Put(ls, l))
  {
    hide IsMark;
    if ls == [] {
      assert l in [l];
    } else {
      HeadAndTail(ls);
      var rest := if ls[0].text == l.text then ls[1..] else Put(ls[1..], l);
      var first := if ls[0].text == l.text then l else ls[0];
      assert Put(ls, l) == [first] + rest;
      assert first in [first] + rest;
      if ls[0].text != l.text {
        PutAdds(ls[1..], l, s);
      }
      HasTextStep(ls, s);
      HasTextStep([first] + rest, s);
      assert ([first] + rest)[1..] == rest;
    }
  }

  lemma HasTextStep(ls: seq<Literal>, s: string)
    requires ls != []
    ensures HasText(ls, s) <==> ls[0].text == s || HasText(ls[1..], s)
  {
    HeadAndTail(ls);
  }

  lemma SecretIsPut(p: Policy, f: Field, ls: seq<Literal>, s: string)
    requires Usable(ls)
    ensures Usable(WithSecret(p, f, ls))
    ensures HasText(WithSecret(p, f, ls), s) <==> HasText(ls, s) || StoresAt(p, f, s)
  {
    hide IsMark, SensitiveKind, HasText, Usable, MarkFor, Put;
    if WorthScrubbing(p, f) {
      var kind := SensitiveKind(f.key, p.custom).value;
      MarkIsMark(p, kind, f.value);
      PutAdds(ls, Literal(f.value.s, MarkFor(p, kind, f.value)), s);
    }
  }

  /** What is collected are exactly the secrets the document stores, and what was
      there before. */
  lemma {:induction false} EverySecretIsCollected(p: Policy, v: Value, ls: seq<Literal>, s: string)
    requires Usable(ls)
    ensures Usable(Collect(p, v, ls))
    ensures HasText(Collect(p, v, ls), s) <==> HasText(ls, s) || Holds(p, v, s)
    decreases v, 0
  {
    hide Usable, HasText, CollectFields, CollectItems, StoresAt;
    match v
    case Object(fields) => EveryFieldIsCollected(p, fields, ls, s);
    case Array(items) => EveryItemIsCollected(p, items, ls, s);
    case Str(_) =>
    case Number(_) =>
    case Null =>
    case Bool(_) =>
  }

  predicate SomeFieldHolds(p: Policy, fields: seq<Field>, s: string) {
    exists f :: f in fields && (StoresAt(p, f, s) || Holds(p, f.value, s))
  }

  predicate SomeItemHolds(p: Policy, items: seq<Value>, s: string) {
    exists w :: w in items && Holds(p, w, s)
  }

  lemma {:induction false} EveryFieldIsCollected(p: Policy, fields: seq<Field>, ls: seq<Literal>, s: string)
    requires Usable(ls)
    ensures Usable(CollectFields(p, fields, ls))
    ensures HasText(CollectFields(p, fields, ls), s) <==> HasText(ls, s) || SomeFieldHolds(p, fields, s)
    decreases fields
  {
    hide Usable, HasText, Collect, StoresAt, WithSecret, Holds;
    if fields != [] {
      var f := fields[0];
      var with := WithSecret(p, f, ls);
      SecretIsPut(p, f, ls, s);
      EverySecretIsCollected(p, f.value, with, s);
      EveryFieldIsCollected(p, fields[1..], Collect(p, f.value, with), s);
      HeadAndTail(fields);
    }
  }

  lemma {:induction false} EveryItemIsCollected(p: Policy, items: seq<Value>, ls: seq<Literal>, s: string)
    requires Usable(ls)
    ensures Usable(CollectItems(p, items, ls))
    ensures HasText(CollectItems(p, items, ls), s) <==> HasText(ls, s) || SomeItemHolds(p, items, s)
    decreases items
  {
    hide Usable, HasText, Collect, Holds;
    if items != [] {
      EverySecretIsCollected(p, items[0], ls, s);
      EveryItemIsCollected(p, items[1..], Collect(p, items[0], ls), s);
      HeadAndTail(items);
    }
  }

  /** The member stores the text at a key whose kind has this placeholder. */
  predicate StoresAs(p: Policy, f: Field, l: Literal) {
    && StoresAt(p, f, l.text)
    && l.mark == MarkFor(p, SensitiveKind(f.key, p.custom).value, f.value)
  }

  predicate HoldsAs(p: Policy, v: Value, l: Literal)
    decreases v
  {
    match v
    case Object(fields) => exists f :: f in fields && (StoresAs(p, f, l) || HoldsAs(p, f.value, l))
    case Array(items) => exists w :: w in items && HoldsAs(p, w, l)
    case Str(_) => false
    case Number(_) => false
    case Null => false
    case Bool(_) => false
  }

  lemma {:induction false} PutIsOne(ls: seq<Literal>, l: Literal, x: Literal)
    requires x in Put(ls, l)
    ensures x in ls || x == l
  {
    if ls != [] && ls[0].text != l.text && x != ls[0] {
      PutIsOne(ls[1..], l, x);
    }
  }

  /** Every secret is collected with the placeholder of a key it is stored at. */
  lemma {:induction false} CollectedMarkIsItsKind(p: Policy, v: Value, ls: seq<Literal>, l: Literal)
    requires l in Collect(p, v, ls)
    ensures l in ls || HoldsAs(p, v, l)
    decreases v, 0
  {
    hide CollectFields, CollectItems, StoresAs;
    match v
    case Object(fields) => CollectedFieldMark(p, fields, ls, l);
    case Array(items) => CollectedItemMark(p, items, ls, l);
    case Str(_) =>
    case Number(_) =>
    case Null =>
    case Bool(_) =>
  }

  lemma {:induction false} CollectedFieldMark(p: Policy, fields: seq<Field>, ls: seq<Literal>, l: Literal)
    requires l in CollectFields(p, fields, ls)
    ensures l in ls || exists f :: f in fields && (StoresAs(p, f, l) || HoldsAs(p, f.value, l))
    decreases fields
  {
    hide Collect, StoresAs, WithSecret, HoldsAs;
    if fields != [] {
      var f := fields[0];
      var with := WithSecret(p, f, ls);
      HeadAndTail(fields);
      CollectedFieldMark(p, fields[1..], Collect(p, f.value, with), l);
      if l in Collect(p, f.value, with) {
        CollectedMarkIsItsKind(p, f.value, with, l);
        PutMark(p, f, ls, l);
      }
    }
  }

  lemma PutMark(p: Policy, f: Field, ls: seq<Literal>, l: Literal)
    ensures l in WithSecret(p, f, ls) ==> l in ls || StoresAs(p, f, l)
  {
    hide IsMark, SensitiveKind, MarkFor, Put;
    if WorthScrubbing(p, f) && l in WithSecret(p, f, ls) {
      PutIsOne(ls, Literal(f.value.s, MarkFor(p, SensitiveKind(f.key, p.custom).value, f.value)), l);
    }
  }

  lemma {:induction false} CollectedItemMark(p: Policy, items: seq<Value>, ls: seq<Literal>, l: Literal)
    requires l in CollectItems(p, items, ls)
    ensures l in ls || exists w :: w in items && HoldsAs(p, w, l)
    decreases items
  {
    hide Collect, HoldsAs;
    if items != [] {
      HeadAndTail(items);
      CollectedItemMark(p, items[1..], Collect(p, items[0], ls), l);
      if l in Collect(p, items[0], ls) {
        CollectedMarkIsItsKind(p, items[0], ls, l);
      }
    }
  }

  // ---- scrubbing a tree -------------------------------------------------------------

  /** Every text below is scrubbed; keys are left alone. */
  function ScrubTree(v: Value, ls: seq<Literal>): (Value, nat)
    decreases v
  {
    match v
    case Object(fields) => (Object(ScrubFields(fields, ls).0), ScrubFields(fields, ls).1)
    case Array(items) => (Array(ScrubItems(items, ls).0), ScrubItems(items, ls).1)
    case Str(s) => (Str(ScrubAll(s, Sorted(ls)).0), ScrubAll(s, Sorted(ls)).1)
    case Number(_) => (v, 0)
    case Null => (v, 0)
    case Bool(_) => (v, 0)
  }

  function ScrubFields(fields: seq<Field>, ls: seq<Literal>): (seq<Field>, nat)
    decreases fields
  {
    if fields == [] then ([], 0)
    else
      var first, rest := ScrubTree(fields[0].value, ls), ScrubFields(fields[1..], ls);
      ([Field(fields[0].key, first.0)] + rest.0, first.1 + rest.1)
  }

  function ScrubItems(items: seq<Value>, ls: seq<Literal>): (seq<Value>, nat)
    decreases items
  {
    if items == [] then ([], 0)
    else
      var first, rest := ScrubTree(items[0], ls), ScrubItems(items[1..], ls);
      ([first.0] + rest.0, first.1 + rest.1)
  }

  /** `s` stands in no text of the tree outside placeholders. */
  predicate TreeClean(v: Value, s: string)
    decreases v
  {
    match v
    case Object(fields) => forall f :: f in fields ==> TreeClean(f.value, s)
    case Array(items) => forall w :: w in items ==> TreeClean(w, s)
    case Str(t) => Clean(t, s)
    case Number(_) => true
    case Null => true
    case Bool(_) => true
  }

  lemma {:induction false} ScrubbedFieldAt(fields: seq<Field>, ls: seq<Literal>, x: nat)
    requires x < |ScrubFields(fields, ls).0|
    ensures x < |fields| && ScrubFields(fields, ls).0[x] == Field(fields[x].key, ScrubTree(fields[x].value, ls).0)
    decreases fields
  {
    hide ScrubTree;
    if x > 0 {
      ScrubbedFieldAt(fields[1..], ls, x - 1);
    }
  }

  lemma {:induction false} ScrubbedItemAt(items: seq<Value>, ls: seq<Literal>, x: nat)
    requires x < |ScrubItems(items, ls).0|
    ensures x < |items| && ScrubItems(items, ls).0[x] == ScrubTree(items[x], ls).0
    decreases items
  {
    hide ScrubTree;
    if x > 0 {
      ScrubbedItemAt(items[1..], ls, x - 1);
    }
  }

  lemma SortedIsUsable(ls: seq<Literal>, s: string)
    requires Usable(ls)
    ensures MarksAreMarks(Sorted(ls))
    ensures HasText(ls, s) ==> HasText(Sorted(ls), s)
  {
    hide Sorted, IsMark;
    var r := Sorted(ls);
    forall x | 0 <= x < |r| ensures IsMark(r[x].mark) {
      assert r[x] in multiset(r);
      assert r[x] in ls;
    }
    if HasText(ls, s) {
      var l :| l in ls && l.text == s;
      assert l in multiset(ls);
      assert l in r;
    }
  }

  lemma TextIsScrubbed(t: string, ls: seq<Literal>, s: string)
    requires Usable(ls) && HasText(ls, s) && s != ""
    ensures Clean(ScrubAll(t, Sorted(ls)).0, s)
  {
    hide Usable, Sorted, Clean, ScrubAll, IsMark;
    SortedIsUsable(ls, s);
    var r := Sorted(ls);
    var l :| l in r && l.text == s;
    var x :| 0 <= x < |r| && r[x] == l;
    NothingKnownIsLeft(t, r, x);
  }

  lemma {:induction false} TreeIsScrubbed(v: Value, ls: seq<Literal>, s: string)
    requires Usable(ls) && HasText(ls, s) && s != ""
    ensures TreeClean(ScrubTree(v, ls).0, s)
    decreases v
  {
    hide Usable, HasText, Clean, ScrubAll, Sorted, ScrubFields, ScrubItems;
    match v
    case Object(fields) =>
      var out := ScrubFields(fields, ls).0;
      forall g | g in out ensures TreeClean(g.value, s) {
        var x :| 0 <= x < |out| && out[x] == g;
        ScrubbedFieldAt(fields, ls, x);
        TreeIsScrubbed(fields[x].value, ls, s);
      }
    case Array(items) =>
      var out := ScrubItems(items, ls).0;
      forall w | w in out ensures TreeClean(w, s) {
        var x :| 0 <= x < |out| && out[x] == w;
        ScrubbedItemAt(items, ls, x);
        TreeIsScrubbed(items[x], ls, s);
      }
    case Str(t) => TextIsScrubbed(t, ls, s);
    case Number(_) =>
    case Null =>
    case Bool(_) =>
  }

  /** A placeholder standing alone is what it was. */
  lemma PlaceholderSurvives(s: string, ls: seq<Literal>)
    requires Usable(ls) && IsMark(s)
    ensures ScrubAll(s, Sorted(ls)).0 == s
  {
    hide Usable, Sorted, IsMark, ScrubAll;
    SortedIsUsable(ls, s);
    QuietOnMark(s, Sorted(ls));
  }

  lemma {:induction false} ScrubbingKeepsMasks(v: Value, ls: seq<Literal>)
    requires Usable(ls) && AllMasked(v)
    ensures AllMasked(ScrubTree(v, ls).0)
    decreases v
  {
    hide Usable, IsMark, ScrubAll, Sorted, ScrubFields, ScrubItems;
    match v
    case Object(fields) =>
      var out := ScrubFields(fields, ls).0;
      forall g | g in out ensures AllMasked(g.value) {
        var x :| 0 <= x < |out| && out[x] == g;
        ScrubbedFieldAt(fields, ls, x);
        ScrubbingKeepsMasks(fields[x].value, ls);
      }
    case Array(items) =>
      var out := ScrubItems(items, ls).0;
      forall w | w in out ensures AllMasked(w) {
        var x :| 0 <= x < |out| && out[x] == w;
        ScrubbedItemAt(items, ls, x);
        ScrubbingKeepsMasks(items[x], ls);
      }
    case Str(s) => PlaceholderSurvives(s, ls);
    case Null =>
    case Bool(_) =>
  }

  lemma {:induction false} ScrubbingKeepsComplete(p: Policy, v: Value, ls: seq<Literal>)
    requires Usable(ls) && Complete(p, v)
    ensures Complete(p, ScrubTree(v, ls).0)
    decreases v
  {
    hide Usable, IsMark, ScrubAll, Sorted, ScrubFields, ScrubItems, FieldComplete;
    match v
    case Object(fields) =>
      var out := ScrubFields(fields, ls).0;
      forall g | g in out ensures FieldComplete(p, g) {
        var x :| 0 <= x < |out| && out[x] == g;
        ScrubbedFieldAt(fields, ls, x);
        assert fields[x] in fields;
        ScrubbingKeepsField(p, fields[x], ls);
      }
    case Array(items) =>
      var out := ScrubItems(items, ls).0;
      forall w | w in out ensures Complete(p, w) {
        var x :| 0 <= x < |out| && out[x] == w;
        ScrubbedItemAt(items, ls, x);
        assert items[x] in items;
        ScrubbingKeepsComplete(p, items[x], ls);
      }
    case Str(_) =>
    case Number(_) =>
    case Null =>
    case Bool(_) =>
  }

  lemma {:induction false} ScrubbingKeepsField(p: Policy, f: Field, ls: seq<Literal>)
    requires Usable(ls) && FieldComplete(p, f)
    ensures FieldComplete(p, Field(f.key, ScrubTree(f.value, ls).0))
    decreases f, 0
  {
    hide Usable, IsMark, SensitiveKind, Complete, AllMasked, ScrubAll, Sorted, ScrubFields, ScrubItems;
    var kind := SensitiveKind(f.key, p.custom);
    if kind.None? || (kind.value.Id? && IsContainer(f.value)) {
      ScrubbingKeepsComplete(p, f.value, ls);
    } else if f.value.Array? {
      ScrubbingKeepsMasks(f.value, ls);
    } else if IsPlaceholder(f.value) {
      PlaceholderSurvives(f.value.s, ls);
    }
  }

  /** A second run over the tree replaces nothing. */
  lemma {:induction false} SecondScrubIsQuiet(v: Value, ls: seq<Literal>)
    requires Usable(ls)
    ensures ScrubTree(ScrubTree(v, ls).0, ls).1 == 0
    decreases v, 0
  {
    hide Usable, ScrubAll, Sorted, ScrubFields, ScrubItems;
    match v
    case Object(fields) => SecondFieldsAreQuiet(fields, ls);
    case Array(items) => SecondItemsAreQuiet(items, ls);
    case Str(s) =>
      SortedIsUsable(ls, s);
      SecondRunIsQuiet(s, Sorted(ls));
    case Number(_) =>
    case Null =>
    case Bool(_) =>
  }

  lemma {:induction false} SecondFieldsAreQuiet(fields: seq<Field>, ls: seq<Literal>)
    requires Usable(ls)
    ensures ScrubFields(ScrubFields(fields, ls).0, ls).1 == 0
    decreases fields
  {
    hide Usable, ScrubTree;
    if fields != [] {
      SecondScrubIsQuiet(fields[0].value, ls);
      SecondFieldsAreQuiet(fields[1..], ls);
      assert ScrubFields(fields, ls).0[1..] == ScrubFields(fields[1..], ls).0;
    }
  }

  lemma {:induction false} SecondItemsAreQuiet(items: seq<Value>, ls: seq<Literal>)
    requires Usable(ls)
    ensures ScrubItems(ScrubItems(items, ls).0, ls).1 == 0
    decreases items
  {
    hide Usable, ScrubTree;
    if items != [] {
      SecondScrubIsQuiet(items[0], ls);
      SecondItemsAreQuiet(items[1..], ls);
      assert ScrubItems(items, ls).0[1..] == ScrubItems(items[1..], ls).0;
    }
  }

  // ---- a source document -------------------------------------------------------------

  function RedactSource(p: Policy, v: Value): Value {
    ScrubTree(Redact(p, v).0, Collect(p, v, [])).0
  }

  /**
   The whole promise: no sensitive key holds a value, and no secret that the
   document stored at one stands between the placeholders of any of its texts.
   */
  lemma SourceIsSafe(p: Policy, v: Value, s: string)
    ensures Complete(p, RedactSource(p, v))
    ensures Holds(p, v, s) ==> TreeClean(RedactSource(p, v), s)
  {
    hide Redact, Complete, Holds, TreeClean, Collect, HasText, ScrubTree;
    var ls := Collect(p, v, []);
    EverySecretIsCollected(p, v, [], s);
    RedactionIsComplete(p, v);
    ScrubbingKeepsComplete(p, Redact(p, v).0, ls);
    if Holds(p, v, s) {
      assert s != "" by {
        SecretIsCollectedNonEmpty(ls, s);
      }
      TreeIsScrubbed(Redact(p, v).0, ls, s);
    }
  }

  lemma SecretIsCollectedNonEmpty(ls: seq<Literal>, s: string)
    requires Usable(ls) && HasText(ls, s)
    ensures s != ""
  {
  }
}
