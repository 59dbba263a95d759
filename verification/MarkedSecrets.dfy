/**
 Secrets that hold a placeholder.  The literal pass looks only between
 placeholders, so it never finds them: what redacting a source document
 promises of its secrets holds exactly for those that hold none.
 */
module MarkedSecrets {
  import opened Json
  import opened Text
  import opened Placeholders
  import opened SensitiveNames
  import opened KnownLiterals
  import opened Scrubbing
  import opened LongestFirst
  import opened JsonRedaction
  import opened JsonGuarantees
  import opened SourceRedaction

  lemma HoldsMark(s: string)
    requires !MarkFree(s)
    ensures exists mark: string :: IsMark(mark) && Contains(s, mark)
  {
    hide FindMark, IsMark;
    var (i, n) := FirstMark(s).value;
    FirstMarkIsMark(s);
    SliceIsContained(s, i, i + n);
  }

  /** A text that holds a placeholder never stands between placeholders. */
  lemma MarkedIsNowhere(t: string, s: string)
    requires !MarkFree(s)
    ensures Clean(t, s)
  {
    hide FindMark, IsMark, Spans, Contains;
    HoldsMark(s);
    var mark: string :| IsMark(mark) && Contains(s, mark);
    forall x | 0 <= x < |Spans(t)| ensures !Contains(Spans(t)[x], s) {
      SpansAreMarkFree(t, x);
      MarkFreeHoldsNoMark(Spans(t)[x], mark);
      if Contains(Spans(t)[x], s) {
        ContainsTransitive(Spans(t)[x], s, mark);
      }
    }
  }

  /** Some text of the tree is `s`. */
  predicate SomeTextIs(v: Value, s: string)
    decreases v
  {
    match v
    case Object(fields) => exists f :: f in fields && SomeTextIs(f.value, s)
    case Array(items) => exists w :: w in items && SomeTextIs(w, s)
    case Str(t) => t == s
    case Number(_) => false
    case Null => false
    case Bool(_) => false
  }

  lemma {:induction false} CleanTreeHasNone(v: Value, s: string)
    requires MarkFree(s) && TreeClean(v, s)
    ensures !SomeTextIs(v, s)
    decreases v
  {
    hide Clean, FindMark;
    match v
    case Object(fields) =>
      forall f | f in fields ensures !SomeTextIs(f.value, s) {
        CleanTreeHasNone(f.value, s);
      }
    case Array(items) =>
      forall w | w in items ensures !SomeTextIs(w, s) {
        CleanTreeHasNone(w, s);
      }
    case Str(t) =>
      if t == s {
        NotCleanOfItself(s);
      }
    case Number(_) =>
    case Null =>
    case Bool(_) =>
  }

  lemma NotCleanOfItself(s: string)
    requires MarkFree(s)
    ensures !Clean(s, s)
  {
    hide FindMark;
    assert Spans(s)[0] == s && s[0..|s|] == s;
    SliceIsContained(s, 0, |s|);
  }

  // ---- a document that keeps such a secret -----------------------------------------

  /** The secret at a sensitive key, and once more where nothing says what it is. */
  function Twice(s: string): Value {
    Array([Object([Field("pin", Str(s))]), Str(s)])
  }

  lemma PinIsSensitive(p: Policy)
    ensures Sensitive(p, "pin")
  {
    NormalizeLetters("pin");
    assert "pin" in ["password", "passwd", "pwd", "passcode", "pin", "secret", "clientsecret"];
  }

  lemma PairCollected(p: Policy, doc: Value, s: string)
    ensures Collect(p, Array([doc, Str(s)]), []) == Collect(p, doc, [])
  {
    assert [doc, Str(s)][1..] == [Str(s)] && [Str(s)][1..] == [];
    assert Collect(p, Array([doc, Str(s)]), []) == CollectItems(p, [doc, Str(s)], []);
    assert CollectItems(p, [Str(s)], Collect(p, doc, [])) == Collect(p, doc, []);
  }

  lemma QuietText(p: Policy, s: string)
    requires p.redactText(s).1 == 0
    ensures Redact(p, Str(s)).0 == Str(s)
  {
  }

  lemma PairItems(p: Policy, doc: Value, s: string)
    requires p.redactText(s).1 == 0
    ensures RedactItems(p, [doc, Str(s)]).0 == [Redact(p, doc).0, Str(s)]
  {
    hide RedactItems, Redact;
    var pair, last := [doc, Str(s)], [Str(s)];
    assert pair[1..] == last && last[1..] == [];
    QuietText(p, s);
    NoItems(p);
    RedactItemsStep(p, last);
    assert RedactItems(p, last).0 == [Str(s)];
    RedactItemsStep(p, pair);
  }

  lemma ArrayRedacted(p: Policy, items: seq<Value>)
    ensures Redact(p, Array(items)).0 == Array(RedactItems(p, items).0)
  {
    hide RedactItems;
  }

  /** What a document of two parts is redacted to: a text in the second is
      scrubbed of the secrets of the first. */
  lemma PairRedacted(p: Policy, doc: Value, s: string)
    requires p.redactText(s).1 == 0
    ensures
      var once := RedactSource(p, Array([doc, Str(s)]));
      && once.Array? && |once.items| == 2
      && once.items[1] == Str(ScrubAll(s, Sorted(Collect(p, doc, []))).0)
  {
    hide Sorted, ScrubAll, Redact, Collect, RedactItems, ScrubItems;
    var ls, items := Collect(p, doc, []), [Redact(p, doc).0, Str(s)];
    PairCollected(p, doc, s);
    PairItems(p, doc, s);
    ArrayRedacted(p, [doc, Str(s)]);
    ScrubbedLength(items, ls);
    ScrubbedItemAt(items, ls, 1);
  }

  lemma {:induction false} ScrubbedLength(items: seq<Value>, ls: seq<Literal>)
    ensures |ScrubItems(items, ls).0| == |items|
    decreases items
  {
    hide ScrubTree;
    if items != [] {
      ScrubbedLength(items[1..], ls);
    }
  }

  lemma OnlySecretIs(p: Policy, s: string)
    requires Utf8Length(s) >= 4 && !IsMark(s)
    ensures Holds(p, Twice(s), s)
    ensures
      var ls := Collect(p, Object([Field("pin", Str(s))]), []);
      Usable(ls) && forall l :: l in ls ==> l.text == s
  {
    hide IsMark, SensitiveKind, Utf8Length, MarkFor;
    var f := Field("pin", Str(s));
    PinIsSensitive(p);
    assert WorthScrubbing(p, f);
    assert f in [f] && Holds(p, Object([f]), s);
    assert Object([f]) in Twice(s).items;
    assert [f][1..] == [];
    SecretIsPut(p, f, [], s);
    assert Collect(p, Object([f]), []) == CollectFields(p, [f], []);
    assert CollectFields(p, [f], []) == CollectFields(p, [], Collect(p, f.value, WithSecret(p, f, [])));
  }

  lemma MarkedSecretStays(p: Policy, s: string)
    requires Utf8Length(s) >= 4 && !IsMark(s) && p.redactText(s).1 == 0 && !MarkFree(s)
    ensures Holds(p, Twice(s), s) && SomeTextIs(RedactSource(p, Twice(s)), s)
  {
    hide IsMark, FindMark, Redact, Collect, RedactSource, ScrubAll, Utf8Length, Holds, Clean;
    var doc := Object([Field("pin", Str(s))]);
    OnlySecretIs(p, s);
    PairRedacted(p, doc, s);
    QuietOnMarked(s, Collect(p, doc, []));
    var once := RedactSource(p, Twice(s));
    assert once.items[1] in once.items && SomeTextIs(once.items[1], s);
  }

  lemma QuietOnMarked(s: string, ls: seq<Literal>)
    requires Usable(ls) && !MarkFree(s) && forall l :: l in ls ==> l.text == s
    ensures ScrubAll(s, Sorted(ls)).0 == s
  {
    hide IsMark, FindMark, Clean, ScrubAll, Sorted, Usable;
    var r := Sorted(ls);
    SortedIsUsable(ls, s);
    MarkedIsNowhere(s, s);
    forall x | 0 <= x < |r| ensures r[x].text == s {
      assert r[x] in multiset(r) && r[x] in ls;
    }
    QuietIffClean(s, r);
  }

  /** A secret the text policy does not know by sight is gone from every document
      that stores it at a sensitive key exactly when it holds no placeholder. */
  lemma SecretsGoIff(p: Policy, s: string)
    requires Utf8Length(s) >= 4 && !IsMark(s) && p.redactText(s).1 == 0
    ensures (forall v: Value :: Holds(p, v, s) ==> !SomeTextIs(RedactSource(p, v), s)) <==> MarkFree(s)
  {
    hide IsMark, FindMark, RedactSource, Utf8Length, Holds, SomeTextIs;
    if MarkFree(s) {
      forall v: Value | Holds(p, v, s) ensures !SomeTextIs(RedactSource(p, v), s) {
        SourceIsSafe(p, v, s);
        CleanTreeHasNone(RedactSource(p, v), s);
      }
    } else {
      MarkedSecretStays(p, s);
    }
  }

  /** One such secret: a placeholder with a letter behind it. */
  lemma PlaceholderWithTail(p: Policy)
    requires p.redactText(Placeholder(Secret, false) + "x").1 == 0
    ensures
      var s := Placeholder(Secret, false) + "x";
      Holds(p, Twice(s), s) && SomeTextIs(RedactSource(p, Twice(s)), s)
  {
    hide Redact, Collect, RedactSource, Holds, SomeTextIs, IsPlainMark, IsEncodedMark, FindMark, Utf8Length;
    var mark := Placeholder(Secret, false);
    var s := mark + "x";
    PlaceholderIsMark(Secret, false);
    FirstMarkAt("", mark, "x");
    assert "" + mark + "x" == s;
    if IsMark(s) {
      LastOfMark(s);
    }
    MarkedSecretStays(p, s);
  }
}
