/**
 What redacting a JSON tree guarantees: nothing sensitive is left at a sensitive
 key, no change goes uncounted, and a second pass is quiet exactly when no
 configured key names a generated flag.
 */
module JsonGuarantees {
  import opened Basics
  import opened Json
  import opened Placeholders
  import opened SensitiveNames
  import opened JsonRedaction

  // ---- completeness -----------------------------------------------------------

  /** Every text below is a placeholder and no number is left. */
  predicate AllMasked(v: Value)
    decreases v
  {
    match v
    case Object(fields) => forall f :: f in fields ==> AllMasked(f.value)
    case Array(items) => forall w :: w in items ==> AllMasked(w)
    case Str(s) => IsMark(s)
    case Number(_) => false
    case Null => true
    case Bool(_) => true
  }

  /** No sensitive key anywhere in the tree still holds a value. */
  predicate Complete(p: Policy, v: Value)
    decreases v
  {
    match v
    case Object(fields) => forall f :: f in fields ==> FieldComplete(p, f)
    case Array(items) => forall w :: w in items ==> Complete(p, w)
    case Str(_) => true
    case Number(_) => true
    case Null => true
    case Bool(_) => true
  }

  /** Containers at an identifier key are searched; other lists are masked; all else is a placeholder or a flag. */
  predicate FieldComplete(p: Policy, f: Field)
    decreases f, 0
  {
    var kind := SensitiveKind(f.key, p.custom);
    if kind.None? || (kind.value.Id? && IsContainer(f.value)) then Complete(p, f.value)
    else if f.value.Array? then AllMasked(f.value)
    else IsPlaceholder(f.value) || IsFlag(f)
  }

  predicate IsFlag(f: Field) {
    f.value == Bool(true) && EndsWith(f.key, "_redacted")
  }

  lemma {:induction false} MaskingMasks(p: Policy, kind: Kind, v: Value)
    ensures AllMasked(Mask(p, kind, v).0)
    ensures Mask(p, kind, v).0.Array? == v.Array?
    decreases v
  {
    hide IsMark, Placeholder;
    match v
    case Object(fields) =>
      var out := MaskFields(p, kind, fields).0;
      forall g | g in out ensures AllMasked(g.value) {
        var x :| 0 <= x < |out| && out[x] == g;
        MaskedFieldAt(p, kind, fields, x);
        MaskingMasks(p, kind, fields[x].value);
      }
    case Array(items) =>
      var out := MaskItems(p, kind, items).0;
      forall w | w in out ensures AllMasked(w) {
        var x :| 0 <= x < |out| && out[x] == w;
        MaskedItemAt(p, kind, items, x);
        MaskingMasks(p, kind, items[x]);
      }
    case Str(_) => MarkIsMark(p, kind, v);
    case Number(_) => MarkIsMark(p, kind, v);
    case Null =>
    case Bool(_) =>
  }

  lemma MarkIsMark(p: Policy, kind: Kind, v: Value)
    ensures IsMark(MarkFor(p, kind, v))
  {
    hide IsPlainMark, IsEncodedMark, Placeholder;
    PlaceholderIsMark(kind, kind.Token? && v.Str? && p.isJwt(v.s));
  }

  lemma {:induction false} MaskedFieldAt(p: Policy, kind: Kind, fields: seq<Field>, x: nat)
    requires x < |MaskFields(p, kind, fields).0|
    ensures x < |fields| && MaskFields(p, kind, fields).0[x] == Field(fields[x].key, Mask(p, kind, fields[x].value).0)
    decreases fields
  {
    hide Mask;
    if x > 0 {
      MaskedFieldAt(p, kind, fields[1..], x - 1);
    }
  }

  lemma {:induction false} MaskedItemAt(p: Policy, kind: Kind, items: seq<Value>, x: nat)
    requires x < |MaskItems(p, kind, items).0|
    ensures x < |items| && MaskItems(p, kind, items).0[x] == Mask(p, kind, items[x]).0
    decreases items
  {
    hide Mask;
    if x > 0 {
      MaskedItemAt(p, kind, items[1..], x - 1);
    }
  }

  lemma {:induction false} RedactedFieldAt(p: Policy, fields: seq<Field>, x: nat)
    requires x < |fields|
    ensures RedactFields(p, fields)[x] == Field(fields[x].key, RedactEntry(p, fields[x]).0)
    decreases fields
  {
    hide RedactEntry;
    if x > 0 {
      RedactedFieldAt(p, fields[1..], x - 1);
    }
  }

  lemma {:induction false} RedactedItemAt(p: Policy, items: seq<Value>, x: nat)
    requires x < |RedactItems(p, items).0|
    ensures x < |items| && RedactItems(p, items).0[x] == Redact(p, items[x]).0
    decreases items
  {
    hide Redact;
    if x > 0 {
      RedactedItemAt(p, items[1..], x - 1);
    }
  }

  lemma {:induction false} InsertedMember(fields: seq<Field>, key: string, value: Value, g: Field)
    requires g in Insert(fields, key, value)
    ensures g in fields || g == Field(key, value)
  {
    if fields != [] && fields[0].key != key && g != fields[0] {
      InsertedMember(fields[1..], key, value, g);
    }
  }

  lemma {:induction false} InsertedFlag(fields: seq<Field>, flags: seq<string>, g: Field)
    requires g in InsertAll(fields, flags)
    ensures g in fields || (g.value == Bool(true) && g.key in flags)
    decreases |flags|
  {
    if flags != [] {
      InsertedFlag(Insert(fields, flags[0], Bool(true)), flags[1..], g);
      if g in Insert(fields, flags[0], Bool(true)) {
        InsertedMember(fields, flags[0], Bool(true), g);
      }
    }
  }

  /** Members of the redacted object are redacted members of the old one, or generated flags. */
  lemma FlaggedMember(fields: seq<Field>, flags: seq<string>, g: Field)
    requires g in WithFlags(fields, flags)
    ensures g in fields || (flags != [] && g.value == Bool(true) && (g.key == "body_redacted" || g.key in flags))
  {
    if flags != [] {
      var once := Insert(fields, "body_redacted", Bool(true));
      InsertedFlag(once, flags, g);
      if g in once {
        InsertedMember(fields, "body_redacted", Bool(true), g);
      }
    }
  }

  /** The member a flag was raised for. */
  lemma {:induction false} FlagHasCause(p: Policy, fields: seq<Field>, flag: string) returns (f: Field)
    requires flag in BodyFlags(p, fields)
    ensures f in fields && Flagged(p, f, Redact(p, f.value).1) && flag == FlagName(f.key)
    decreases fields
  {
    hide Redact, Flagged, FlagName;
    f := fields[0];
    if !(Flagged(p, f, Redact(p, f.value).1) && flag == FlagName(f.key)) {
      f := FlagHasCause(p, fields[1..], flag);
    }
  }

  lemma FlagNameIsFlag(key: string)
    ensures EndsWith(FlagName(key), "_redacted") && EndsWith("body_redacted", "_redacted")
  {
    assert FlagName(key)[|key|..] == "_redacted";
    assert "body_redacted"[4..] == "_redacted";
  }

  /** Whatever the text policy does, no value survives at a sensitive key. */
  lemma {:induction false} RedactionIsComplete(p: Policy, v: Value)
    ensures Complete(p, Redact(p, v).0)
    decreases v
  {
    hide FieldComplete, WithFlags, RedactFields, RedactItems, FieldsChange, BodyFlags;
    match v
    case Object(fields) => MembersAreComplete(p, fields);
    case Array(items) => ItemsAreComplete(p, items);
    case Str(_) =>
    case Number(_) =>
    case Null =>
    case Bool(_) =>
  }

  lemma {:induction false} MembersAreComplete(p: Policy, fields: seq<Field>)
    ensures forall g :: g in WithFlags(RedactFields(p, fields), BodyFlags(p, fields)) ==> FieldComplete(p, g)
    decreases fields
  {
    hide FieldComplete, WithFlags, RedactFields, BodyFlags;
    forall g | g in WithFlags(RedactFields(p, fields), BodyFlags(p, fields)) ensures FieldComplete(p, g) {
      FlaggedMember(RedactFields(p, fields), BodyFlags(p, fields), g);
      if g in RedactFields(p, fields) {
        OldMemberIsComplete(p, fields, g);
      } else {
        NewFlagIsComplete(p, fields, g);
      }
    }
  }

  /** A member that was there before. */
  lemma {:induction false} OldMemberIsComplete(p: Policy, fields: seq<Field>, g: Field)
    requires g in RedactFields(p, fields)
    ensures FieldComplete(p, g)
    decreases fields, 0
  {
    hide FieldComplete, RedactFields, RedactEntry;
    var y :| 0 <= y < |fields| && RedactFields(p, fields)[y] == g;
    RedactedFieldAt(p, fields, y);
    EntryIsComplete(p, fields[y]);
  }

  /** A generated flag. */
  lemma NewFlagIsComplete(p: Policy, fields: seq<Field>, g: Field)
    requires g.value == Bool(true) && (g.key == "body_redacted" || g.key in BodyFlags(p, fields))
    ensures FieldComplete(p, g)
  {
    hide SensitiveKind, IsMark, BodyFlags, Flagged, FlagName, EndsWith, AllMasked, Redact;
    if g.key == "body_redacted" {
      FlagNameIsFlag("");
    } else {
      var cause := FlagHasCause(p, fields, g.key);
      FlagNameIsFlag(cause.key);
    }
    assert Complete(p, g.value);
  }

  lemma {:induction false} ItemsAreComplete(p: Policy, items: seq<Value>)
    ensures forall w :: w in RedactItems(p, items).0 ==> Complete(p, w)
    decreases items
  {
    hide Complete, RedactItems, Redact;
    forall w | w in RedactItems(p, items).0 ensures Complete(p, w) {
      var x :| 0 <= x < |RedactItems(p, items).0| && RedactItems(p, items).0[x] == w;
      RedactedItemAt(p, items, x);
      RedactionIsComplete(p, items[x]);
    }
  }

  lemma {:induction false} EntryIsComplete(p: Policy, f: Field)
    ensures FieldComplete(p, Field(f.key, RedactEntry(p, f).0))
    decreases f, 0
  {
    hide IsMark, SensitiveKind, Mask, MarkFor, AllMasked;
    RedactionIsComplete(p, f.value);
    var kind := SensitiveKind(f.key, p.custom);
    if kind.Some? {
      MarkIsMark(p, kind.value, f.value);
      MaskingMasks(p, kind.value, f.value);
    }
  }

  // ---- every change is counted ----------------------------------------------------

  /** A count of zero means nothing was touched. */
  lemma {:induction false} UncountedIsUnchanged(p: Policy, v: Value)
    requires Redact(p, v).1.values == 0
    ensures Redact(p, v).0 == v && !Redact(p, v).1.body
    decreases v
  {
    hide WithFlags;
    match v
    case Object(fields) =>
      UncountedFields(p, fields);
      assert WithFlags(fields, []) == fields by {
        EmptyFlags(fields);
      }
    case Array(items) => UncountedItems(p, items);
    case Str(_) =>
    case Number(_) =>
    case Null =>
    case Bool(_) =>
  }

  lemma EmptyFlags(fields: seq<Field>)
    ensures WithFlags(fields, []) == fields
  {
  }

  lemma FieldsChangeStep(p: Policy, fields: seq<Field>)
    requires fields != []
    ensures FieldsChange(p, fields) == RedactEntry(p, fields[0]).1.Merge(FieldsChange(p, fields[1..]))
  {
  }

  lemma RedactItemsStep(p: Policy, items: seq<Value>)
    requires items != []
    ensures RedactItems(p, items).0 == [Redact(p, items[0]).0] + RedactItems(p, items[1..]).0
    ensures RedactItems(p, items).1 == Redact(p, items[0]).1.Merge(RedactItems(p, items[1..]).1)
  {
  }

  lemma NoItems(p: Policy)
    ensures RedactItems(p, []).0 == [] && RedactItems(p, []).1 == NO_CHANGE
  {
  }

  lemma {:induction false} UncountedFields(p: Policy, fields: seq<Field>)
    requires FieldsChange(p, fields).values == 0
    ensures RedactFields(p, fields) == fields && BodyFlags(p, fields) == [] && !FieldsChange(p, fields).body
    decreases fields, 1
  {
    if fields != [] {
      hide *;
      UncountedFieldsStep(p, fields);
    }
  }

  lemma {:induction false} UncountedFieldsStep(p: Policy, fields: seq<Field>)
    requires FieldsChange(p, fields).values == 0 && fields != []
    ensures RedactFields(p, fields) == fields && BodyFlags(p, fields) == [] && !FieldsChange(p, fields).body
    decreases fields, 0
  {
    hide Redact, RedactEntry, Flagged, RedactFields, BodyFlags, FieldsChange;
    FieldsChangeStep(p, fields);
    UncountedEntry(p, fields[0]);
    UncountedFields(p, fields[1..]);
    FirstField(p, fields);
    HeadAndTail(fields);
  }

  lemma NoFields(p: Policy)
    ensures RedactFields(p, []) == [] && BodyFlags(p, []) == [] && FieldsChange(p, []) == NO_CHANGE
  {
  }

  lemma FirstField(p: Policy, fields: seq<Field>)
    requires fields != []
    ensures RedactFields(p, fields)
      == [Field(fields[0].key, RedactEntry(p, fields[0]).0)] + RedactFields(p, fields[1..])
    ensures !Flagged(p, fields[0], Redact(p, fields[0].value).1) ==> BodyFlags(p, fields) == BodyFlags(p, fields[1..])
  {
    hide Redact, RedactEntry, Flagged;
  }

  lemma {:induction false} UncountedItems(p: Policy, items: seq<Value>)
    requires RedactItems(p, items).1.values == 0
    ensures RedactItems(p, items).0 == items && !RedactItems(p, items).1.body
    decreases items, 1
  {
    if items != [] {
      hide *;
      UncountedItemsStep(p, items);
    }
  }

  lemma {:induction false} UncountedItemsStep(p: Policy, items: seq<Value>)
    requires RedactItems(p, items).1.values == 0 && items != []
    ensures RedactItems(p, items).0 == items && !RedactItems(p, items).1.body
    decreases items, 0
  {
    hide Redact, RedactItems;
    RedactItemsStep(p, items);
    UncountedIsUnchanged(p, items[0]);
    UncountedItems(p, items[1..]);
    HeadAndTail(items);
  }

  predicate Searched(p: Policy, f: Field) {
    var kind := SensitiveKind(f.key, p.custom);
    kind.None? || (kind.value.Id? && IsContainer(f.value))
  }

  lemma SearchedEntry(p: Policy, f: Field)
    requires Searched(p, f)
    ensures RedactEntry(p, f).0 == Redact(p, f.value).0
    ensures RedactEntry(p, f).1 == Redact(p, f.value).1.Merge(Change(0, Flagged(p, f, Redact(p, f.value).1)))
  {
    hide SensitiveKind, IsBodyKey, Redact;
  }

  lemma {:induction false} UncountedEntry(p: Policy, f: Field)
    requires RedactEntry(p, f).1.values == 0
    ensures RedactEntry(p, f).0 == f.value && !RedactEntry(p, f).1.body && !Flagged(p, f, Redact(p, f.value).1)
    decreases f, 1
  {
    hide *;
    if Searched(p, f) {
      UncountedSearch(p, f);
    } else {
      UncountedReplacement(p, f);
    }
  }

  lemma {:induction false} UncountedReplacement(p: Policy, f: Field)
    requires RedactEntry(p, f).1.values == 0 && !Searched(p, f)
    ensures RedactEntry(p, f).0 == f.value && !RedactEntry(p, f).1.body && !Flagged(p, f, Redact(p, f.value).1)
  {
    hide SensitiveKind, IsBodyKey, IsMark, MarkFor, Redact, Mask;
    if f.value.Array? {
      UncountedMask(p, SensitiveKind(f.key, p.custom).value, f.value);
    }
  }

  lemma {:induction false} UncountedSearch(p: Policy, f: Field)
    requires RedactEntry(p, f).1.values == 0 && Searched(p, f)
    ensures RedactEntry(p, f).0 == f.value && !RedactEntry(p, f).1.body && !Flagged(p, f, Redact(p, f.value).1)
    decreases f, 0
  {
    hide SensitiveKind, IsBodyKey, Redact, RedactEntry;
    SearchedEntry(p, f);
    UncountedIsUnchanged(p, f.value);
  }

  lemma {:induction false} UncountedMask(p: Policy, kind: Kind, v: Value)
    requires Mask(p, kind, v).1 == 0
    ensures Mask(p, kind, v).0 == v
    decreases v
  {
    hide IsMark, MarkFor;
    match v
    case Object(fields) => UncountedMaskFields(p, kind, fields);
    case Array(items) => UncountedMaskItems(p, kind, items);
    case Str(_) =>
    case Number(_) =>
    case Null =>
    case Bool(_) =>
  }

  lemma {:induction false} UncountedMaskFields(p: Policy, kind: Kind, fields: seq<Field>)
    requires MaskFields(p, kind, fields).1 == 0
    ensures MaskFields(p, kind, fields).0 == fields
    decreases fields
  {
    hide Mask;
    if fields != [] {
      UncountedMask(p, kind, fields[0].value);
      UncountedMaskFields(p, kind, fields[1..]);
      HeadAndTail(fields);
    }
  }

  lemma {:induction false} UncountedMaskItems(p: Policy, kind: Kind, items: seq<Value>)
    requires MaskItems(p, kind, items).1 == 0
    ensures MaskItems(p, kind, items).0 == items
    decreases items
  {
    hide Mask;
    if items != [] {
      UncountedMask(p, kind, items[0]);
      UncountedMaskItems(p, kind, items[1..]);
      HeadAndTail(items);
    }
  }

  /** Masking counts nothing exactly where everything is already masked. */
  lemma {:induction false} MaskCountsTheRest(p: Policy, kind: Kind, v: Value)
    ensures Mask(p, kind, v).1 == 0 <==> AllMasked(v)
    decreases v
  {
    hide IsMark, MarkFor;
    match v
    case Object(fields) => MaskCountsFields(p, kind, fields);
    case Array(items) => MaskCountsItems(p, kind, items);
    case Str(_) =>
    case Number(_) =>
    case Null =>
    case Bool(_) =>
  }

  lemma {:induction false} MaskCountsFields(p: Policy, kind: Kind, fields: seq<Field>)
    ensures MaskFields(p, kind, fields).1 == 0 <==> forall f :: f in fields ==> AllMasked(f.value)
    decreases fields
  {
    hide Mask, AllMasked;
    if fields != [] {
      MaskCountsTheRest(p, kind, fields[0].value);
      MaskCountsFields(p, kind, fields[1..]);
      HeadAndTail(fields);
    }
  }

  lemma {:induction false} MaskCountsItems(p: Policy, kind: Kind, items: seq<Value>)
    ensures MaskItems(p, kind, items).1 == 0 <==> forall v :: v in items ==> AllMasked(v)
    decreases items
  {
    hide Mask, AllMasked;
    if items != [] {
      MaskCountsTheRest(p, kind, items[0]);
      MaskCountsItems(p, kind, items[1..]);
      HeadAndTail(items);
    }
  }

  // ---- the second pass --------------------------------------------------------------

  /** The text policy leaves its own results and placeholders alone. */
  ghost predicate StableText(p: Policy) {
    && (forall s: string :: p.redactText(s).1 > 0 ==> p.redactText(p.redactText(s).0).1 == 0)
    && (forall s: string :: IsMark(s) ==> p.redactText(s).1 == 0)
  }

  /** No sensitive key is the name of a flag that a body can raise. */
  ghost predicate FlagsAreSafe(p: Policy) {
    forall key: string :: CanRaise(p, key) ==> !Sensitive(p, FlagName(key)) && !Sensitive(p, "body_redacted")
  }

  predicate CanRaise(p: Policy, key: string) {
    IsBodyKey(key) && !Sensitive(p, key)
  }

  predicate Sensitive(p: Policy, key: string) {
    SensitiveKind(key, p.custom).Some?
  }

  predicate Quiet(p: Policy, v: Value) {
    Redact(p, v).1.values == 0
  }

  predicate QuietEntry(p: Policy, f: Field) {
    RedactEntry(p, f).1.values == 0
  }

  lemma {:induction false} QuietMembers(p: Policy, fields: seq<Field>)
    ensures FieldsChange(p, fields).values == 0 <==> forall f :: f in fields ==> QuietEntry(p, f)
    decreases fields
  {
    hide RedactEntry, FieldsChange;
    if fields == [] {
      NoFields(p);
    } else {
      FieldsChangeStep(p, fields);
      QuietMembers(p, fields[1..]);
      HeadAndTail(fields);
    }
  }

  lemma {:induction false} QuietElements(p: Policy, items: seq<Value>)
    ensures RedactItems(p, items).1.values == 0 <==> forall v :: v in items ==> Quiet(p, v)
    decreases items
  {
    hide Redact, RedactItems;
    if items == [] {
      NoItems(p);
    } else {
      RedactItemsStep(p, items);
      QuietElements(p, items[1..]);
      HeadAndTail(items);
    }
  }

  lemma {:induction false} SecondPassIsQuiet(p: Policy, v: Value)
    requires StableText(p) && FlagsAreSafe(p)
    ensures Quiet(p, Redact(p, v).0)
    decreases v
  {
    hide IsMark, SensitiveKind, WithFlags, RedactEntry, RedactFields, FieldsChange, BodyFlags, FlagName;
    hide RedactItems, FlagsAreSafe;
    match v
    case Object(fields) =>
      var out := WithFlags(RedactFields(p, fields), BodyFlags(p, fields));
      forall g | g in out ensures QuietEntry(p, g) {
        FlaggedMember(RedactFields(p, fields), BodyFlags(p, fields), g);
        if g in RedactFields(p, fields) {
          var y :| 0 <= y < |fields| && RedactFields(p, fields)[y] == g;
          RedactedFieldAt(p, fields, y);
          SecondEntryIsQuiet(p, fields[y]);
        } else {
          var cause := FlagHasCause(p, fields, if g.key == "body_redacted" then BodyFlags(p, fields)[0] else g.key);
          FlagIsQuiet(p, cause.key, g);
        }
      }
      QuietMembers(p, out);
    case Array(items) =>
      var out := RedactItems(p, items).0;
      forall w | w in out ensures Quiet(p, w) {
        var x :| 0 <= x < |out| && out[x] == w;
        RedactedItemAt(p, items, x);
        SecondPassIsQuiet(p, items[x]);
      }
      QuietElements(p, out);
    case Str(_) =>
    case Number(_) =>
    case Null =>
    case Bool(_) =>
  }

  lemma FlagIsQuiet(p: Policy, key: string, g: Field)
    requires FlagsAreSafe(p) && CanRaise(p, key)
    requires g.value == Bool(true) && (g.key == "body_redacted" || g.key == FlagName(key))
    ensures QuietEntry(p, g)
  {
    hide SensitiveKind, FlagName, IsBodyKey;
    assert !Sensitive(p, g.key);
    assert Redact(p, g.value).1 == NO_CHANGE;
  }

  lemma {:induction false} SecondEntryIsQuiet(p: Policy, f: Field)
    requires StableText(p) && FlagsAreSafe(p)
    ensures QuietEntry(p, Field(f.key, RedactEntry(p, f).0))
    decreases f, 0
  {
    hide IsMark, SensitiveKind, Mask, MarkFor, AllMasked, StableText, FlagsAreSafe;
    SecondPassIsQuiet(p, f.value);
    var kind := SensitiveKind(f.key, p.custom);
    if kind.Some? {
      MarkIsMark(p, kind.value, f.value);
      MaskingMasks(p, kind.value, f.value);
      MaskCountsTheRest(p, kind.value, Mask(p, kind.value, f.value).0);
    }
  }
}
