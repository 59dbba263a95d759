/**
 What redacting a JSON tree leaves alone: members keep their places and keys,
 lists their lengths, and every value that is neither sensitive nor found
 sensitive by the text policy is untouched.
 */
module JsonFrame {
  import opened Basics
  import opened Json
  import opened Placeholders
  import opened SensitiveNames
  import opened JsonRedaction
  import opened JsonGuarantees
  import opened SecondPass

  /** Below a sensitive list: texts and numbers give way to placeholders of its kind, nothing else moves. */
  predicate MaskedFrom(p: Policy, kind: Kind, before: Value, after: Value)
    decreases before
  {
    match before
    case Object(fields) =>
      && after.Object? && |after.fields| == |fields|
      && forall x :: 0 <= x < |fields| ==>
        after.fields[x].key == fields[x].key && MaskedFrom(p, kind, fields[x].value, after.fields[x].value)
    case Array(items) =>
      && after.Array? && |after.items| == |items|
      && forall x :: 0 <= x < |items| ==> MaskedFrom(p, kind, items[x], after.items[x])
    case Str(s) => if IsMark(s) then after == before else after == Str(MarkFor(p, kind, before))
    case Number(_) => after == Str(MarkFor(p, kind, before))
    case Null => after == before
    case Bool(_) => after == before
  }

  predicate RedactedFrom(p: Policy, before: Value, after: Value)
    decreases before, 1
  {
    match before
    case Object(fields) =>
      && after.Object? && |fields| <= |after.fields|
      && (forall x :: 0 <= x < |fields| ==>
            after.fields[x].key == fields[x].key
            && (MemberRedactedFrom(p, fields[x], after.fields[x].value) || IsFlag(after.fields[x])))
      && (forall x :: |fields| <= x < |after.fields| ==> IsFlag(after.fields[x]))
    case Array(items) =>
      && after.Array? && |after.items| == |items|
      && forall x :: 0 <= x < |items| ==> RedactedFrom(p, items[x], after.items[x])
    case Str(s) => after == before || (p.redactText(s).1 > 0 && after == Str(p.redactText(s).0))
    case Number(_) => after == before
    case Null => after == before
    case Bool(_) => after == before
  }

  predicate MemberRedactedFrom(p: Policy, f: Field, after: Value)
    decreases f, 0
  {
    var kind := SensitiveKind(f.key, p.custom);
    if kind.None? || (kind.value.Id? && IsContainer(f.value)) then RedactedFrom(p, f.value, after)
    else if f.value.Array? then MaskedFrom(p, kind.value, f.value, after)
    else after == if IsPlaceholder(f.value) then f.value else Str(MarkFor(p, kind.value, f.value))
  }

  lemma {:induction false} MaskLength(p: Policy, kind: Kind, fields: seq<Field>, items: seq<Value>)
    ensures |MaskFields(p, kind, fields).0| == |fields| && |MaskItems(p, kind, items).0| == |items|
    decreases |fields| + |items|
  {
    hide Mask;
    if fields != [] {
      MaskLength(p, kind, fields[1..], items);
    } else if items != [] {
      MaskLength(p, kind, fields, items[1..]);
    }
  }

  lemma {:induction false} MaskKeepsTheRest(p: Policy, kind: Kind, v: Value)
    ensures MaskedFrom(p, kind, v, Mask(p, kind, v).0)
    decreases v
  {
    hide IsMark, MarkFor, MaskFields, MaskItems;
    match v
    case Object(fields) =>
      MaskLength(p, kind, fields, []);
      var out := MaskFields(p, kind, fields).0;
      forall x | 0 <= x < |fields|
        ensures out[x].key == fields[x].key && MaskedFrom(p, kind, fields[x].value, out[x].value)
      {
        MaskedFieldAt(p, kind, fields, x);
        MaskKeepsTheRest(p, kind, fields[x].value);
      }
    case Array(items) =>
      MaskLength(p, kind, [], items);
      var out := MaskItems(p, kind, items).0;
      forall x | 0 <= x < |items| ensures MaskedFrom(p, kind, items[x], out[x]) {
        MaskedItemAt(p, kind, items, x);
        MaskKeepsTheRest(p, kind, items[x]);
      }
    case Str(_) =>
    case Number(_) =>
    case Null =>
    case Bool(_) =>
  }

  // ---- flags ------------------------------------------------------------------------

  /** `after` is `before` with flags put in, over members of the same key or behind the last. */
  predicate FlagsPut(before: seq<Field>, after: seq<Field>) {
    && |before| <= |after|
    && (forall x :: 0 <= x < |before| ==>
          after[x].key == before[x].key && (after[x] == before[x] || IsFlag(after[x])))
    && (forall x :: |before| <= x < |after| ==> IsFlag(after[x]))
  }

  lemma {:induction false} InsertPutsFlag(fields: seq<Field>, key: string)
    requires EndsWith(key, "_redacted")
    ensures FlagsPut(fields, Insert(fields, key, Bool(true)))
  {
    hide EndsWith;
    if fields != [] {
      HeadAndTail(fields);
      if fields[0].key != key {
        InsertPutsFlag(fields[1..], key);
        Prepended(fields[0], fields[1..], Insert(fields[1..], key, Bool(true)));
      }
    }
  }

  lemma Prepended(first: Field, before: seq<Field>, after: seq<Field>)
    requires FlagsPut(before, after)
    ensures FlagsPut([first] + before, [first] + after)
  {
    hide IsFlag;
  }

  lemma FlagsPutTwice(a: seq<Field>, b: seq<Field>, c: seq<Field>)
    requires FlagsPut(a, b) && FlagsPut(b, c)
    ensures FlagsPut(a, c)
  {
    hide EndsWith;
  }

  lemma {:induction false} AllFlagsPut(fields: seq<Field>, flags: seq<string>)
    requires forall flag :: flag in flags ==> EndsWith(flag, "_redacted")
    ensures FlagsPut(fields, InsertAll(fields, flags))
    decreases |flags|
  {
    hide EndsWith, FlagsPut, Insert;
    if flags == [] {
      NothingPut(fields);
    } else {
      HeadAndTail(flags);
      var once := Insert(fields, flags[0], Bool(true));
      InsertPutsFlag(fields, flags[0]);
      AllFlagsPut(once, flags[1..]);
      FlagsPutTwice(fields, once, InsertAll(once, flags[1..]));
    }
  }

  lemma NothingPut(fields: seq<Field>)
    ensures FlagsPut(fields, fields)
  {
  }

  lemma BodyFlagsPut(p: Policy, fields: seq<Field>, out: seq<Field>)
    ensures FlagsPut(out, WithFlags(out, BodyFlags(p, fields)))
  {
    hide BodyFlags, EndsWith, FlagsPut, Insert, FlagName;
    var flags := BodyFlags(p, fields);
    NothingPut(out);
    forall flag | flag in flags ensures EndsWith(flag, "_redacted") {
      var cause := FlagHasCause(p, fields, flag);
      FlagNameIsFlag(cause.key);
    }
    FlagNameIsFlag("");
    var once := Insert(out, "body_redacted", Bool(true));
    InsertPutsFlag(out, "body_redacted");
    AllFlagsPut(once, flags);
    FlagsPutTwice(out, once, InsertAll(once, flags));
  }

  // ---- trees ------------------------------------------------------------------------

  /** Redaction changes nothing but what it is meant to change. */
  lemma {:induction false} RedactionKeepsTheRest(p: Policy, v: Value)
    ensures RedactedFrom(p, v, Redact(p, v).0)
    decreases v, 1
  {
    hide IsMark, SensitiveKind, WithFlags, RedactEntry, RedactFields, FieldsChange, BodyFlags, RedactItems;
    hide MemberRedactedFrom, IsFlag;
    match v
    case Object(fields) =>
      var mid := RedactFields(p, fields);
      var out := WithFlags(mid, BodyFlags(p, fields));
      BodyFlagsPut(p, fields, mid);
      forall x | 0 <= x < |fields|
        ensures out[x].key == fields[x].key && (MemberRedactedFrom(p, fields[x], out[x].value) || IsFlag(out[x]))
      {
        RedactedFieldAt(p, fields, x);
        EntryKeepsTheRest(p, fields[x]);
      }
    case Array(items) =>
      var out := RedactItems(p, items).0;
      ItemsLength(p, items);
      forall x | 0 <= x < |items| ensures RedactedFrom(p, items[x], out[x]) {
        RedactedItemAt(p, items, x);
        RedactionKeepsTheRest(p, items[x]);
      }
    case Str(_) =>
    case Number(_) =>
    case Null =>
    case Bool(_) =>
  }

  lemma {:induction false} ItemsLength(p: Policy, items: seq<Value>)
    ensures |RedactItems(p, items).0| == |items|
    decreases items
  {
    hide Redact;
    if items != [] {
      ItemsLength(p, items[1..]);
    }
  }

  lemma {:induction false} EntryKeepsTheRest(p: Policy, f: Field)
    ensures MemberRedactedFrom(p, f, RedactEntry(p, f).0)
    decreases f, 0
  {
    hide IsMark, SensitiveKind, Mask, MarkFor, MaskedFrom, Redact, RedactedFrom;
    RedactionKeepsTheRest(p, f.value);
    var kind := SensitiveKind(f.key, p.custom);
    if kind.Some? {
      MaskKeepsTheRest(p, kind.value, f.value);
    }
  }

  // ---- bodies are flagged -------------------------------------------------------------

  lemma {:induction false} FlagIsListed(p: Policy, fields: seq<Field>, f: Field)
    requires f in fields && Flagged(p, f, Redact(p, f.value).1)
    ensures FlagName(f.key) in BodyFlags(p, fields)
    decreases fields
  {
    hide Redact, Flagged, FlagName;
    HeadAndTail(fields);
    if f != fields[0] {
      FlagIsListed(p, fields[1..], f);
    }
  }

  lemma {:induction false} ListedIsPut(fields: seq<Field>, flags: seq<string>, flag: string)
    requires flag in flags || Field(flag, Bool(true)) in fields
    ensures Field(flag, Bool(true)) in InsertAll(fields, flags)
    decreases |flags|
  {
    hide Insert;
    if flags != [] {
      HeadAndTail(flags);
      InsertPuts(fields, flags[0], Bool(true));
      if Field(flag, Bool(true)) in fields {
        InsertSpares(fields, flags[0], flag);
      }
      ListedIsPut(Insert(fields, flags[0], Bool(true)), flags[1..], flag);
    }
  }

  /** A body in which something was redacted is flagged by name, and so is its object. */
  lemma BodiesAreFlagged(p: Policy, fields: seq<Field>, f: Field)
    requires f in fields && IsBodyKey(f.key) && !Sensitive(p, f.key) && Redact(p, f.value).1.values > 0
    ensures
      var out := Redact(p, Object(fields));
      && out.0.Object? && out.1.body
      && Field(f.key + "_redacted", Bool(true)) in out.0.fields
      && Field("body_redacted", Bool(true)) in out.0.fields
  {
    hide SensitiveKind, IsBodyKey, RedactFields, RedactEntry, FieldsChange, BodyFlags, Insert;
    var mid, flags := RedactFields(p, fields), BodyFlags(p, fields);
    FlagIsListed(p, fields, f);
    var once := Insert(mid, "body_redacted", Bool(true));
    InsertPuts(mid, "body_redacted", Bool(true));
    ListedIsPut(once, flags, "body_redacted");
    ListedIsPut(once, flags, FlagName(f.key));
    BodyIsReported(p, fields, f);
  }

  lemma {:induction false} BodyIsReported(p: Policy, fields: seq<Field>, f: Field)
    requires f in fields && Flagged(p, f, Redact(p, f.value).1)
    ensures FieldsChange(p, fields).body
    decreases fields
  {
    hide SensitiveKind, IsBodyKey, Redact, RedactEntry, FieldsChange;
    HeadAndTail(fields);
    FieldsChangeStep(p, fields);
    if f == fields[0] {
      SearchedEntry(p, f);
    } else {
      BodyIsReported(p, fields[1..], f);
    }
  }
}
