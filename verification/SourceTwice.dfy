/**
 Redacting a source document twice: nothing is left to collect, and the second
 pass is quiet exactly when no flag name is sensitive and no placeholder put in
 by scrubbing makes the text policy see something new.
 */
module SourceTwice {
  import opened Basics
  import opened Json
  import opened Text
  import opened Placeholders
  import opened SensitiveNames
  import opened KnownLiterals
  import opened Scrubbing
  import opened LongestFirst
  import opened JsonRedaction
  import opened JsonGuarantees
  import opened SourceRedaction
  import opened SecondPass
  import opened MarkedSecrets

  lemma {:induction false} NothingInMasked(p: Policy, v: Value, ls: seq<Literal>)
    requires AllMasked(v)
    ensures Collect(p, v, ls) == ls
    decreases v, 0
  {
    hide CollectFields, CollectItems, IsMark;
    match v
    case Object(fields) => NothingInMaskedFields(p, fields, ls);
    case Array(items) => NothingInMaskedItems(p, items, ls);
    case Str(_) =>
    case Null =>
    case Bool(_) =>
  }

  lemma {:induction false} NothingInMaskedFields(p: Policy, fields: seq<Field>, ls: seq<Literal>)
    requires forall f :: f in fields ==> AllMasked(f.value)
    ensures CollectFields(p, fields, ls) == ls
    decreases fields
  {
    hide Collect, IsMark, SensitiveKind, Utf8Length;
    if fields != [] {
      HeadAndTail(fields);
      assert AllMasked(fields[0].value);
      NothingInMasked(p, fields[0].value, ls);
      NothingInMaskedFields(p, fields[1..], ls);
    }
  }

  lemma {:induction false} NothingInMaskedItems(p: Policy, items: seq<Value>, ls: seq<Literal>)
    requires forall w :: w in items ==> AllMasked(w)
    ensures CollectItems(p, items, ls) == ls
    decreases items
  {
    hide Collect, AllMasked;
    if items != [] {
      HeadAndTail(items);
      NothingInMasked(p, items[0], ls);
      NothingInMaskedItems(p, items[1..], ls);
    }
  }

  /** A complete tree holds no secret worth scrubbing. */
  lemma {:induction false} NothingLeftToCollect(p: Policy, v: Value, ls: seq<Literal>)
    requires Complete(p, v)
    ensures Collect(p, v, ls) == ls
    decreases v, 0
  {
    hide CollectFields, CollectItems, FieldComplete;
    match v
    case Object(fields) => NothingInFields(p, fields, ls);
    case Array(items) => NothingInItems(p, items, ls);
    case Str(_) =>
    case Number(_) =>
    case Null =>
    case Bool(_) =>
  }

  lemma {:induction false} NothingInFields(p: Policy, fields: seq<Field>, ls: seq<Literal>)
    requires forall f :: f in fields ==> FieldComplete(p, f)
    ensures CollectFields(p, fields, ls) == ls
    decreases fields
  {
    hide Collect, FieldComplete, WithSecret;
    if fields != [] {
      HeadAndTail(fields);
      NothingInField(p, fields[0], ls);
      NothingInFields(p, fields[1..], ls);
    }
  }

  lemma {:induction false} NothingInField(p: Policy, f: Field, ls: seq<Literal>)
    requires FieldComplete(p, f)
    ensures WithSecret(p, f, ls) == ls && Collect(p, f.value, ls) == ls
    decreases f, 1
  {
    hide IsMark, SensitiveKind, Utf8Length, CollectFields, CollectItems, Complete, AllMasked;
    var kind := SensitiveKind(f.key, p.custom);
    if kind.None? || (kind.value.Id? && IsContainer(f.value)) {
      NothingLeftToCollect(p, f.value, ls);
    } else if f.value.Array? {
      NothingInMasked(p, f.value, ls);
    }
  }

  lemma {:induction false} NothingInItems(p: Policy, items: seq<Value>, ls: seq<Literal>)
    requires forall w :: w in items ==> Complete(p, w)
    ensures CollectItems(p, items, ls) == ls
    decreases items
  {
    hide Collect, Complete;
    if items != [] {
      HeadAndTail(items);
      NothingLeftToCollect(p, items[0], ls);
      NothingInItems(p, items[1..], ls);
    }
  }

  lemma {:induction false} NoLiteralsNoChange(v: Value)
    ensures ScrubTree(v, []).0 == v && ScrubTree(v, []).1 == 0
    decreases v, 0
  {
    hide ScrubFields, ScrubItems;
    match v
    case Object(fields) => NoLiteralsNoFieldChange(fields);
    case Array(items) => NoLiteralsNoItemChange(items);
    case Str(_) =>
    case Number(_) =>
    case Null =>
    case Bool(_) =>
  }

  lemma {:induction false} NoLiteralsNoFieldChange(fields: seq<Field>)
    ensures ScrubFields(fields, []).0 == fields && ScrubFields(fields, []).1 == 0
    decreases fields
  {
    hide ScrubTree;
    if fields != [] {
      NoLiteralsNoChange(fields[0].value);
      NoLiteralsNoFieldChange(fields[1..]);
      HeadAndTail(fields);
    }
  }

  lemma {:induction false} NoLiteralsNoItemChange(items: seq<Value>)
    ensures ScrubItems(items, []).0 == items && ScrubItems(items, []).1 == 0
    decreases items
  {
    hide ScrubTree;
    if items != [] {
      NoLiteralsNoChange(items[0]);
      NoLiteralsNoItemChange(items[1..]);
      HeadAndTail(items);
    }
  }

  /** How many replacements one whole pass makes. */
  function SourceChanges(p: Policy, v: Value): nat {
    Redact(p, v).1.values + ScrubTree(Redact(p, v).0, Collect(p, v, [])).1
  }

  /** On its own result a pass has nothing to collect and nothing to scrub: all it
      may still do is redact the tree. */
  lemma SecondSourcePass(p: Policy, v: Value)
    ensures
      var once := RedactSource(p, v);
      && Collect(p, once, []) == []
      && SourceChanges(p, once) == Redact(p, once).1.values
  {
    hide Complete, Redact, ScrubTree, Collect;
    var once := RedactSource(p, v);
    SourceIsSafe(p, v, "");
    NothingLeftToCollect(p, once, []);
    NoLiteralsNoChange(Redact(p, once).0);
  }

  // ---- when the second pass is quiet --------------------------------------------------

  ghost predicate SourceSettles(p: Policy) {
    forall v: Value :: SourceChanges(p, RedactSource(p, v)) == 0
  }

  /** A text the policy is quiet on is still so once the secrets of some document
      have been scrubbed from it. */
  ghost predicate ScrubsStayQuiet(p: Policy) {
    forall doc: Value, s: string :: p.redactText(s).1 == 0 ==> QuietScrubbed(p, doc, s)
  }

  predicate QuietScrubbed(p: Policy, doc: Value, s: string) {
    p.redactText(ScrubAll(s, Sorted(Collect(p, doc, []))).0).1 == 0
  }

  /** Scrubbing a quiet tree leaves it quiet. */
  lemma {:induction false} ScrubbedTreeIsQuiet(p: Policy, w: Value, doc: Value)
    requires ScrubsStayQuiet(p) && Quiet(p, w) && Usable(Collect(p, doc, []))
    ensures Quiet(p, ScrubTree(w, Collect(p, doc, [])).0)
    decreases w, 0
  {
    hide Usable, Collect, ScrubFields, ScrubItems, RedactFields, RedactItems, FieldsChange, BodyFlags, WithFlags;
    hide RedactEntry, ScrubAll, Sorted;
    var ls := Collect(p, doc, []);
    match w
    case Object(fields) =>
      var out := ScrubFields(fields, ls).0;
      QuietMembers(p, fields);
      forall g | g in out ensures QuietEntry(p, g) {
        var x :| 0 <= x < |out| && out[x] == g;
        ScrubbedFieldAt(fields, ls, x);
        assert fields[x] in fields;
        ScrubbedEntryIsQuiet(p, fields[x], doc);
      }
      QuietMembers(p, out);
    case Array(items) =>
      var out := ScrubItems(items, ls).0;
      QuietElements(p, items);
      forall u | u in out ensures Quiet(p, u) {
        var x :| 0 <= x < |out| && out[x] == u;
        ScrubbedItemAt(items, ls, x);
        assert items[x] in items;
        ScrubbedTreeIsQuiet(p, items[x], doc);
      }
      QuietElements(p, out);
    case Str(s) => assert QuietScrubbed(p, doc, s);
    case Number(_) =>
    case Null =>
    case Bool(_) =>
  }

  lemma {:induction false} ScrubbedEntryIsQuiet(p: Policy, f: Field, doc: Value)
    requires ScrubsStayQuiet(p) && QuietEntry(p, f) && Usable(Collect(p, doc, []))
    ensures QuietEntry(p, Field(f.key, ScrubTree(f.value, Collect(p, doc, [])).0))
    decreases f, 1
  {
    hide ScrubsStayQuiet, RedactEntry, Redact, ScrubTree, Collect, SensitiveKind, Usable;
    if Searched(p, f) {
      SearchedStaysQuiet(p, f, doc);
    } else {
      ReplacedStaysQuiet(p, f, Collect(p, doc, []));
    }
  }

  lemma {:induction false} SearchedStaysQuiet(p: Policy, f: Field, doc: Value)
    requires ScrubsStayQuiet(p) && Searched(p, f) && QuietEntry(p, f) && Usable(Collect(p, doc, []))
    ensures QuietEntry(p, Field(f.key, ScrubTree(f.value, Collect(p, doc, [])).0))
    decreases f, 0
  {
    hide ScrubsStayQuiet, RedactEntry, Redact, ScrubTree, Collect, SensitiveKind, Usable;
    SearchedEntry(p, f);
    ScrubbedTreeIsQuiet(p, f.value, doc);
    ScrubKeepsContainer(f.value, Collect(p, doc, []));
    SearchedEntry(p, Field(f.key, ScrubTree(f.value, Collect(p, doc, [])).0));
  }

  lemma ScrubKeepsContainer(v: Value, ls: seq<Literal>)
    ensures ScrubTree(v, ls).0.Array? == v.Array? && ScrubTree(v, ls).0.Object? == v.Object?
  {
    hide ScrubFields, ScrubItems, ScrubAll;
  }

  /** What stands at a sensitive key is a placeholder or masked, and scrubbing leaves it so. */
  lemma ReplacedStaysQuiet(p: Policy, f: Field, ls: seq<Literal>)
    requires !Searched(p, f) && QuietEntry(p, f) && Usable(ls)
    ensures QuietEntry(p, Field(f.key, ScrubTree(f.value, ls).0))
  {
    hide SensitiveKind, IsMark, MarkFor, Mask, AllMasked, Usable, ScrubAll, Sorted, ScrubFields, ScrubItems, Redact;
    var kind := SensitiveKind(f.key, p.custom).value;
    ScrubKeepsContainer(f.value, ls);
    if f.value.Array? {
      MaskCountsTheRest(p, kind, f.value);
      ScrubbingKeepsMasks(f.value, ls);
      MaskCountsTheRest(p, kind, ScrubTree(f.value, ls).0);
    } else {
      PlaceholderSurvives(f.value.s, ls);
    }
  }

  lemma QuietScrubsSettle(p: Policy, v: Value)
    requires StableText(p) && FlagsAreSafe(p) && ScrubsStayQuiet(p)
    ensures SourceChanges(p, RedactSource(p, v)) == 0
  {
    hide StableText, FlagsAreSafe, ScrubsStayQuiet, Redact, Collect, ScrubTree, Usable;
    SecondPassIsQuiet(p, v);
    UsableNothing();
    EverySecretIsCollected(p, v, [], "");
    ScrubbedTreeIsQuiet(p, Redact(p, v).0, v);
    SecondSourcePass(p, v);
  }

  lemma UsableNothing()
    ensures Usable([])
  {
  }

  /** A text that the policy sees something in only after scrubbing, behind the
      document it is scrubbed of. */
  lemma ScrubbedTextActsAgain(p: Policy, doc: Value, s: string)
    requires p.redactText(s).1 == 0 && !QuietScrubbed(p, doc, s)
    ensures SourceChanges(p, RedactSource(p, Array([doc, Str(s)]))) > 0
  {
    hide Redact, Collect, ScrubTree, ScrubAll, Sorted, RedactSource;
    var v := Array([doc, Str(s)]);
    var once := RedactSource(p, v);
    PairRedacted(p, doc, s);
    SecondSourcePass(p, v);
    LoudItem(p, once.items, 1);
  }

  lemma LoudItem(p: Policy, items: seq<Value>, x: nat)
    requires x < |items| && items[x].Str? && p.redactText(items[x].s).1 > 0
    ensures Redact(p, Array(items)).1.values > 0
  {
    hide RedactItems;
    QuietElements(p, items);
    assert items[x] in items && !Quiet(p, items[x]);
  }

  /** A body whose flag the second pass takes for a secret holds nothing to scrub. */
  lemma UnsafeFlagActsAgain(p: Policy, key: string, bad: string)
    requires CanRaise(p, key) && !Quiet(p, Redact(p, BodyWith(key, bad)).0)
    ensures SourceChanges(p, RedactSource(p, BodyWith(key, bad))) > 0
  {
    hide Redact, Collect, ScrubTree;
    var v := BodyWith(key, bad);
    BodyHoldsNoText(p, key, bad);
    NoLiteralsNoChange(Redact(p, v).0);
    SecondSourcePass(p, v);
  }

  lemma BodyHoldsNoText(p: Policy, key: string, bad: string)
    ensures Collect(p, BodyWith(key, bad), []) == []
  {
    hide SensitiveKind;
    var inner := Field(bad, Null);
    var outer := Field(key, Object([inner]));
    assert [inner][1..] == [] && [outer][1..] == [];
    assert WithSecret(p, inner, []) == [] && WithSecret(p, outer, []) == [];
    assert CollectFields(p, [inner], []) == [];
    assert Collect(p, Object([inner]), []) == [];
    assert CollectFields(p, [outer], []) == [];
  }

  /** With a text policy that leaves its own output alone, a second pass changes
      no document exactly when no flag name is sensitive and scrubbing leaves
      quiet texts quiet. */
  lemma SourceSettlesIff(p: Policy)
    requires StableText(p)
    ensures SourceSettles(p) <==> FlagsAreSafe(p) && ScrubsStayQuiet(p)
  {
    hide StableText, FlagsAreSafe, QuietScrubbed, SourceChanges, RedactSource;
    if FlagsAreSafe(p) && ScrubsStayQuiet(p) {
      forall v: Value ensures SourceChanges(p, RedactSource(p, v)) == 0 {
        QuietScrubsSettle(p, v);
      }
    } else if !FlagsAreSafe(p) {
      var key, bad := Unsettled(p);
      UnsafeFlagActsAgain(p, key, bad);
    } else {
      var doc: Value, s: string :| p.redactText(s).1 == 0 && !QuietScrubbed(p, doc, s);
      ScrubbedTextActsAgain(p, doc, s);
    }
  }

  // ---- a document that does not settle --------------------------------------------------

  const ADDRESS := "1.2.3.4"
  const IP_MARK := Placeholder(Ip, false)
  const SECRET_MARK := Placeholder(Secret, false)

  function Hidden(span: string): (string, nat) {
    if span == ADDRESS then (IP_MARK, 1) else (span, 0)
  }

  /** Replaces the address where it stands alone between placeholders. */
  function HideAddress(t: string): (string, nat)
    decreases |t|
  {
    var found := FirstMark(t);
    if found.None? then Hidden(t)
    else
      var (i, n) := found.value;
      var head, rest := Hidden(t[..i]), HideAddress(t[i + n..]);
      (head.0 + t[i..i + n] + rest.0, head.1 + rest.1)
  }

  const ADDRESS_POLICY := Policy({}, HideAddress, _ => false)

  lemma HideBehind(a: string, mark: string, rest: string)
    requires MarkFree(a) && IsMark(mark)
    ensures HideAddress(a + mark + rest).0 == Hidden(a).0 + mark + HideAddress(rest).0
    ensures HideAddress(a + mark + rest).1 == Hidden(a).1 + HideAddress(rest).1
  {
    hide FindMark, IsMark, Hidden;
    MarkAlone(mark);
    FirstMarkAt(a, mark, rest);
    var t := a + mark + rest;
    assert t[..|a|] == a && t[|a|..|a| + |mark|] == mark && t[|a| + |mark|..] == rest;
  }

  lemma {:induction false} HiddenStaysHidden(t: string)
    ensures HideAddress(HideAddress(t).0).1 == 0
    decreases |t|
  {
    hide FindMark, IsPlainMark, IsEncodedMark;
    var found := FirstMark(t);
    ShortIsMarkFree("");
    PlaceholderIsMark(Ip, false);
    if found.None? {
      HideBehind("", IP_MARK, "");
      assert "" + IP_MARK + "" == IP_MARK;
    } else {
      var (i, n) := found.value;
      var head, mark, rest := t[..i], t[i..i + n], HideAddress(t[i + n..]).0;
      HiddenStaysHidden(t[i + n..]);
      BeforeFirstMark(t);
      FirstMarkIsMark(t);
      HideBehind(head, mark, rest);
      HideBehind("", mark, rest);
      HideBehind("", IP_MARK, "" + mark + rest);
      Regrouped(IP_MARK, mark, rest);
    }
  }

  lemma Regrouped(a: string, b: string, c: string)
    ensures "" + a + ("" + b + c) == a + b + c
  {
  }

  lemma AddressPolicyIsStable()
    ensures StableText(ADDRESS_POLICY) && FlagsAreSafe(ADDRESS_POLICY)
  {
    hide FindMark, IsMark, FlagsAreSafe, HideAddress;
    forall s: string ensures HideAddress(HideAddress(s).0).1 == 0 {
      HiddenStaysHidden(s);
    }
    forall s: string | IsMark(s) ensures HideAddress(s).1 == 0 {
      ShortIsMarkFree("");
      HideBehind("", s, "");
      NothingHidden("");
      assert "" + s + "" == s;
    }
    NoFlagConfiguredIsSafe(ADDRESS_POLICY);
  }

  lemma NothingHidden(t: string)
    requires |t| < 12 && t != ADDRESS
    ensures HideAddress(t).0 == t && HideAddress(t).1 == 0
  {
    hide FindMark;
    ShortIsMarkFree(t);
  }

  const SECRETIVE := Object([Field("pin", Str("abcd"))])

  lemma PinCollected()
    ensures Collect(ADDRESS_POLICY, SECRETIVE, []) == [Literal("abcd", SECRET_MARK)]
  {
    hide SensitiveKind, IsMark, Placeholder;
    PinIsSecret();
    var f := Field("pin", Str("abcd"));
    assert [f][1..] == [];
    assert WithSecret(ADDRESS_POLICY, f, []) == [Literal("abcd", SECRET_MARK)] by {
      assert !IsMark("abcd") by {
        MarkIsLongerThan("abcd");
      }
    }
    assert CollectFields(ADDRESS_POLICY, [f], []) == [Literal("abcd", SECRET_MARK)];
  }

  lemma PinIsSecret()
    ensures SensitiveKind("pin", {}) == Some(Secret)
  {
    NormalizeLetters("pin");
    assert "pin" in ["password", "passwd", "pwd", "passcode", "pin", "secret", "clientsecret"];
  }

  lemma MarkIsLongerThan(s: string)
    requires |s| < 12
    ensures !IsMark(s)
  {
  }

  /** Scrubbing uncovers the address. */
  lemma AddressUncovered()
    ensures ScrubAll("abcd" + ADDRESS, Sorted([Literal("abcd", SECRET_MARK)])).0 == SECRET_MARK + ADDRESS
  {
    hide Scrub, Hits, Placeholder, Sorted, Utf8Length;
    var l := Literal("abcd", SECRET_MARK);
    OneIsSorted(l);
    NoSecretInAddress();
    HeadGoes("abcd", ADDRESS, SECRET_MARK);
    MarkStartsElsewhere();
    OneScrub("abcd" + ADDRESS, l);
  }

  lemma OneIsSorted(l: Literal)
    ensures Sorted([l]) == [l]
  {
    hide Utf8Length;
    assert [l][1..] == [];
  }

  lemma OneScrub(t: string, l: Literal)
    ensures ScrubAll(t, [l]).0 == Replaced(t, l).0
  {
    hide Scrub, Hits, Replaced;
    assert [l][1..] == [];
  }

  /** At first the policy sees nothing. */
  lemma AddressUnseen()
    ensures HideAddress("abcd" + ADDRESS).1 == 0
  {
    hide HideAddress;
    NoSecretInAddress();
    NothingHidden("abcd" + ADDRESS);
  }

  /** Then it does. */
  lemma AddressHidden()
    ensures HideAddress(SECRET_MARK + ADDRESS).0 == SECRET_MARK + IP_MARK
    ensures HideAddress(SECRET_MARK + ADDRESS).1 == 1
  {
    hide Placeholder, FindMark, IsPlainMark, IsEncodedMark;
    PlaceholderIsMark(Secret, false);
    ShortIsMarkFree("");
    ShortIsMarkFree(ADDRESS);
    HideBehind("", SECRET_MARK, ADDRESS);
    assert "" + SECRET_MARK + ADDRESS == SECRET_MARK + ADDRESS;
    assert "" + SECRET_MARK + IP_MARK == SECRET_MARK + IP_MARK;
  }

  lemma NoSecretInAddress()
    ensures !Contains(ADDRESS, "abcd") && ("abcd" + ADDRESS)[0] == 'a'
  {
    forall i | 0 <= i <= |ADDRESS| - 4 ensures !OccursAt(ADDRESS, "abcd", i) {
      assert ADDRESS[i..i + 4][0] == ADDRESS[i] && ADDRESS[i] != "abcd"[0];
    }
  }

  lemma MarkStartsElsewhere()
    ensures "abcd" != SECRET_MARK
  {
    assert SECRET_MARK[0] == '<';
  }

  /** A stable text policy and safe flags are not enough: once the secret in front
      of it has become a placeholder, the address stands alone. */
  lemma StableTextIsNotEnough()
    ensures StableText(ADDRESS_POLICY) && FlagsAreSafe(ADDRESS_POLICY)
    ensures
      var v := Array([SECRETIVE, Str("abcd" + ADDRESS)]);
      SourceChanges(ADDRESS_POLICY, RedactSource(ADDRESS_POLICY, v)) > 0
  {
    hide StableText, FlagsAreSafe, SourceChanges, RedactSource, Collect, ScrubAll, Sorted, HideAddress, Placeholder;
    AddressPolicyIsStable();
    PinCollected();
    AddressUncovered();
    AddressUnseen();
    AddressHidden();
    ScrubbedTextActsAgain(ADDRESS_POLICY, SECRETIVE, "abcd" + ADDRESS);
  }
}
