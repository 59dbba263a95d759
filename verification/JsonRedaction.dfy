/**
 Redaction of JSON trees: `redact_value` and `mask_leaves` of
 cli/src/redaction.rs.  Which plain texts look sensitive is decided by regular
 expressions and embedded JSON there, and by `Policy.redactText` here.
 */
module JsonRedaction {
  import opened Json
  import opened Placeholders
  import opened SensitiveNames

  /** `redactText` gives a text and how many replacements led to it. */
  datatype Policy = Policy(custom: set<string>, redactText: string -> (string, nat), isJwt: string -> bool)

  datatype Change = Change(values: nat, body: bool) {
    function Merge(other: Change): (r: Change)
      ensures r.values == 0 <==> values == 0 && other.values == 0
    {
      Change(values + other.values, body || other.body)
    }
  }

  const NO_CHANGE := Change(0, false)

  function IsContainer(v: Value): bool {
    v.Object? || v.Array?
  }

  predicate IsPlaceholder(v: Value) {
    v.Str? && IsMark(v.s)
  }

  /** What takes the place of `v` at a key of this kind. */
  function MarkFor(p: Policy, kind: Kind, v: Value): string {
    Placeholder(kind, kind.Token? && v.Str? && p.isJwt(v.s))
  }

  // ---- masking a list ---------------------------------------------------------

  /** Every text and number below becomes a placeholder. */
  function Mask(p: Policy, kind: Kind, v: Value): (Value, nat)
    decreases v
  {
    match v
    case Object(fields) => (Object(MaskFields(p, kind, fields).0), MaskFields(p, kind, fields).1)
    case Array(items) => (Array(MaskItems(p, kind, items).0), MaskItems(p, kind, items).1)
    case Str(s) => if IsMark(s) then (v, 0) else (Str(MarkFor(p, kind, v)), 1)
    case Number(_) => (Str(MarkFor(p, kind, v)), 1)
    case Null => (v, 0)
    case Bool(_) => (v, 0)
  }

  function MaskItems(p: Policy, kind: Kind, items: seq<Value>): (seq<Value>, nat)
    decreases items
  {
    if items == [] then ([], 0)
    else
      var first, rest := Mask(p, kind, items[0]), MaskItems(p, kind, items[1..]);
      ([first.0] + rest.0, first.1 + rest.1)
  }

  function MaskFields(p: Policy, kind: Kind, fields: seq<Field>): (seq<Field>, nat)
    decreases fields
  {
    if fields == [] then ([], 0)
    else
      var first, rest := Mask(p, kind, fields[0].value), MaskFields(p, kind, fields[1..]);
      ([Field(fields[0].key, first.0)] + rest.0, first.1 + rest.1)
  }

  // ---- redacting a tree -------------------------------------------------------

  function Redact(p: Policy, v: Value): (Value, Change)
    decreases v
  {
    match v
    case Object(fields) =>
      (Object(WithFlags(RedactFields(p, fields), BodyFlags(p, fields))), FieldsChange(p, fields))
    case Array(items) => (Array(RedactItems(p, items).0), RedactItems(p, items).1)
    case Str(s) =>
      var (redacted, count) := p.redactText(s);
      (if count > 0 then Str(redacted) else v, Change(count, false))
    case Null => (v, NO_CHANGE)
    case Bool(_) => (v, NO_CHANGE)
    case Number(_) => (v, NO_CHANGE)
  }

  function RedactItems(p: Policy, items: seq<Value>): (seq<Value>, Change)
    decreases items
  {
    if items == [] then ([], NO_CHANGE)
    else
      var first, rest := Redact(p, items[0]), RedactItems(p, items[1..]);
      ([first.0] + rest.0, first.1.Merge(rest.1))
  }

  /** One entry of an object: its new value and what changed. */
  function RedactEntry(p: Policy, f: Field): (Value, Change)
    decreases f, 0
  {
    var kind := SensitiveKind(f.key, p.custom);
    if kind.Some? then
      if kind.value.Id? && IsContainer(f.value) then Redact(p, f.value)
      else if f.value.Array? then
        var masked := Mask(p, kind.value, f.value);
        (masked.0, Change(masked.1, false))
      else if IsPlaceholder(f.value) then (f.value, NO_CHANGE)
      else (Str(MarkFor(p, kind.value, f.value)), Change(1, false))
    else
      var nested := Redact(p, f.value);
      (nested.0, nested.1.Merge(Change(0, Flagged(p, f, nested.1))))
  }

  /** A body whose content was redacted is flagged as such. */
  predicate Flagged(p: Policy, f: Field, nested: Change) {
    SensitiveKind(f.key, p.custom).None? && IsBodyKey(f.key) && nested.values > 0
  }

  function RedactFields(p: Policy, fields: seq<Field>): (r: seq<Field>)
    ensures |r| == |fields|
    decreases fields
  {
    if fields == [] then []
    else [Field(fields[0].key, RedactEntry(p, fields[0]).0)] + RedactFields(p, fields[1..])
  }

  function FieldsChange(p: Policy, fields: seq<Field>): Change
    decreases fields
  {
    if fields == [] then NO_CHANGE else RedactEntry(p, fields[0]).1.Merge(FieldsChange(p, fields[1..]))
  }

  function BodyFlags(p: Policy, fields: seq<Field>): seq<string>
    decreases fields
  {
    if fields == [] then []
    else
      var flagged := Flagged(p, fields[0], Redact(p, fields[0].value).1);
      (if flagged then [FlagName(fields[0].key)] else []) + BodyFlags(p, fields[1..])
  }

  /** `insert` of a map: a key already present keeps its place. */
  function Insert(fields: seq<Field>, key: string, value: Value): seq<Field> {
    if fields == [] then [Field(key, value)]
    else if fields[0].key == key then [Field(key, value)] + fields[1..]
    else [fields[0]] + Insert(fields[1..], key, value)
  }

  function InsertAll(fields: seq<Field>, flags: seq<string>): seq<Field>
    decreases |flags|
  {
    if flags == [] then fields else InsertAll(Insert(fields, flags[0], Bool(true)), flags[1..])
  }

  function WithFlags(fields: seq<Field>, flags: seq<string>): seq<Field> {
    if flags == [] then fields else InsertAll(Insert(fields, "body_redacted", Bool(true)), flags)
  }

  method RedactValue(p: Policy, v: Value) returns (r: Value, change: Change)
    ensures (r, change) == Redact(p, v)
    decreases v
  {
    hide RedactEntry, RedactFields, BodyFlags, FieldsChange, WithFlags, RedactItems;
    match v
    case Object(fields) =>
      var out, flags, total := RedactMembers(p, fields);
      out := AddFlags(out, flags);
      r, change := Object(out), total;
    case Array(items) =>
      var out: seq<Value>;
      out, change := RedactElements(p, items);
      r := Array(out);
    case Str(s) =>
      var (redacted, count) := p.redactText(s);
      r, change := if count > 0 then Str(redacted) else v, Change(count, false);
    case Null => r, change := v, NO_CHANGE;
    case Bool(_) => r, change := v, NO_CHANGE;
    case Number(_) => r, change := v, NO_CHANGE;
  }

  /** What redacting the elements from the `x`th on gives. */
  lemma RedactItemsFrom(p: Policy, items: seq<Value>, x: nat)
    requires x <= |items|
    ensures x == |items| ==> RedactItems(p, items[x..]).0 == [] && RedactItems(p, items[x..]).1 == NO_CHANGE
    ensures x < |items| ==>
      var first, rest := Redact(p, items[x]), RedactItems(p, items[x + 1..]);
      && RedactItems(p, items[x..]).0 == [first.0] + rest.0
      && RedactItems(p, items[x..]).1 == first.1.Merge(rest.1)
  {
    hide Redact;
    if x < |items| {
      assert items[x..][0] == items[x] && items[x..][1..] == items[x + 1..];
    }
  }

  method RedactElements(p: Policy, items: seq<Value>) returns (out: seq<Value>, total: Change)
    ensures out == RedactItems(p, items).0 && total == RedactItems(p, items).1
    decreases items
  {
    hide Redact, RedactItems;
    out, total := [], NO_CHANGE;
    assert items[0..] == items;
    for x := 0 to |items|
      invariant out + RedactItems(p, items[x..]).0 == RedactItems(p, items).0
      invariant total.Merge(RedactItems(p, items[x..]).1) == RedactItems(p, items).1
    {
      RedactItemsFrom(p, items, x);
      var redacted, nested := RedactValue(p, items[x]);
      out := out + [redacted];
      total := total.Merge(nested);
    }
    RedactItemsFrom(p, items, |items|);
  }

  /** The loop over the members of an object. */
  method RedactMembers(p: Policy, fields: seq<Field>) returns (out: seq<Field>, flags: seq<string>, total: Change)
    ensures out == RedactFields(p, fields) && flags == BodyFlags(p, fields) && total == FieldsChange(p, fields)
    decreases fields
  {
    hide SensitiveKind, IsBodyKey, FlagName, Mask, Redact, RedactItems, MarkFor, IsMark;
    out, flags, total := [], [], NO_CHANGE;
    assert fields[0..] == fields;
    for x := 0 to |fields|
      invariant out + RedactFields(p, fields[x..]) == RedactFields(p, fields)
      invariant flags + BodyFlags(p, fields[x..]) == BodyFlags(p, fields)
      invariant total.Merge(FieldsChange(p, fields[x..])) == FieldsChange(p, fields)
    {
      var f := fields[x];
      assert fields[x..][0] == f && fields[x..][1..] == fields[x + 1..];
      var value, change, flagged := RedactMember(p, f);
      out := out + [Field(f.key, value)];
      flags := if flagged then flags + [FlagName(f.key)] else flags;
      total := total.Merge(change);
    }
  }

  /** One turn of that loop. */
  method RedactMember(p: Policy, f: Field) returns (value: Value, change: Change, flagged: bool)
    ensures (value, change) == RedactEntry(p, f)
    ensures flagged == Flagged(p, f, Redact(p, f.value).1)
    decreases f, 0
  {
    hide SensitiveKind, IsBodyKey, Mask, Redact, MarkFor, IsMark;
    var kind := SensitiveKind(f.key, p.custom);
    if kind.Some? && kind.value.Id? && IsContainer(f.value) {
      value, change := RedactValue(p, f.value);
      flagged := false;
    } else if kind.Some? && f.value.Array? {
      var masked, count := MaskLeaves(p, kind.value, f.value);
      value, change, flagged := masked, Change(count, false), false;
    } else if kind.Some? && IsPlaceholder(f.value) {
      value, change, flagged := f.value, NO_CHANGE, false;
    } else if kind.Some? {
      value, change, flagged := Str(MarkFor(p, kind.value, f.value)), Change(1, false), false;
    } else {
      var nested: Change;
      value, nested := RedactValue(p, f.value);
      flagged := IsBodyKey(f.key) && nested.values > 0;
      change := nested.Merge(Change(0, flagged));
    }
  }

  method AddFlags(fields: seq<Field>, flags: seq<string>) returns (out: seq<Field>)
    ensures out == WithFlags(fields, flags)
  {
    out := fields;
    if flags != [] {
      out := Insert(out, "body_redacted", Bool(true));
      assert flags[0..] == flags;
      for x := 0 to |flags|
        invariant InsertAll(out, flags[x..]) == WithFlags(fields, flags)
      {
        assert flags[x..][0] == flags[x] && flags[x..][1..] == flags[x + 1..];
        out := Insert(out, flags[x], Bool(true));
      }
    }
  }

  method MaskLeaves(p: Policy, kind: Kind, v: Value) returns (r: Value, count: nat)
    ensures (r, count) == Mask(p, kind, v)
    decreases v
  {
    hide IsMark, MarkFor, MaskItems, MaskFields;
    match v
    case Object(fields) =>
      var out: seq<Field>;
      out, count := MaskMembers(p, kind, fields);
      r := Object(out);
    case Array(items) =>
      var out: seq<Value>;
      out, count := MaskElements(p, kind, items);
      r := Array(out);
    case Str(s) =>
      r, count := if IsMark(s) then v else Str(MarkFor(p, kind, v)), if IsMark(s) then 0 else 1;
    case Number(_) => r, count := Str(MarkFor(p, kind, v)), 1;
    case Null => r, count := v, 0;
    case Bool(_) => r, count := v, 0;
  }

  /** What masking the members from the `x`th on gives. */
  lemma MaskFieldsFrom(p: Policy, kind: Kind, fields: seq<Field>, x: nat)
    requires x <= |fields|
    ensures x == |fields| ==> MaskFields(p, kind, fields[x..]).0 == [] && MaskFields(p, kind, fields[x..]).1 == 0
    ensures x < |fields| ==>
      var first, rest := Mask(p, kind, fields[x].value), MaskFields(p, kind, fields[x + 1..]);
      && MaskFields(p, kind, fields[x..]).0 == [Field(fields[x].key, first.0)] + rest.0
      && MaskFields(p, kind, fields[x..]).1 == first.1 + rest.1
  {
    hide Mask;
    if x < |fields| {
      assert fields[x..][0] == fields[x] && fields[x..][1..] == fields[x + 1..];
    }
  }

  method MaskMembers(p: Policy, kind: Kind, fields: seq<Field>) returns (out: seq<Field>, count: nat)
    ensures out == MaskFields(p, kind, fields).0 && count == MaskFields(p, kind, fields).1
    decreases fields
  {
    hide Mask, MaskFields;
    out, count := [], 0;
    assert fields[0..] == fields;
    for x := 0 to |fields|
      invariant out + MaskFields(p, kind, fields[x..]).0 == MaskFields(p, kind, fields).0
      invariant count + MaskFields(p, kind, fields[x..]).1 == MaskFields(p, kind, fields).1
    {
      MaskFieldsFrom(p, kind, fields, x);
      var masked, more := MaskLeaves(p, kind, fields[x].value);
      out := out + [Field(fields[x].key, masked)];
      count := count + more;
    }
    MaskFieldsFrom(p, kind, fields, |fields|);
  }

  lemma MaskItemsFrom(p: Policy, kind: Kind, items: seq<Value>, x: nat)
    requires x <= |items|
    ensures x == |items| ==> MaskItems(p, kind, items[x..]).0 == [] && MaskItems(p, kind, items[x..]).1 == 0
    ensures x < |items| ==>
      var first, rest := Mask(p, kind, items[x]), MaskItems(p, kind, items[x + 1..]);
      && MaskItems(p, kind, items[x..]).0 == [first.0] + rest.0
      && MaskItems(p, kind, items[x..]).1 == first.1 + rest.1
  {
    hide Mask;
    if x < |items| {
      assert items[x..][0] == items[x] && items[x..][1..] == items[x + 1..];
    }
  }

  method MaskElements(p: Policy, kind: Kind, items: seq<Value>) returns (out: seq<Value>, count: nat)
    ensures out == MaskItems(p, kind, items).0 && count == MaskItems(p, kind, items).1
    decreases items
  {
    hide Mask, MaskItems;
    out, count := [], 0;
    assert items[0..] == items;
    for x := 0 to |items|
      invariant out + MaskItems(p, kind, items[x..]).0 == MaskItems(p, kind, items).0
      invariant count + MaskItems(p, kind, items[x..]).1 == MaskItems(p, kind, items).1
    {
      MaskItemsFrom(p, kind, items, x);
      var masked, more := MaskLeaves(p, kind, items[x]);
      out := out + [masked];
      count := count + more;
    }
    MaskItemsFrom(p, kind, items, |items|);
  }
}
